# ble.sniff and the MySQL packet constants, modelled in Dafny

This project models two parts of a bettercap fork written in Go.

- **The `ble.sniff` session module.** It starts `tshark` on an nRF Sniffer
  interface, or replays a pcap or a JSON file. It reads the JSON packet stream
  that comes back and keeps statistics on it. Each BLE advertisement (access
  address `0x8e89bed6`) becomes at most one "BLE ADVERT" sniffer event that
  names the advertiser's company. The event is produced only when the
  advertisement carries a string advertising address, an advertising-data
  object holding an entry object, and a string company id in that entry.
- **The canned MySQL packets.** These are the server greeting, the two OK
  responses and the LOCAL INFILE request builder that a rogue MySQL server
  sends.

The model's modules follow the Go files:

| module | models |
|---|---|
| `Wrappers` | the `Option` type used for every "ok" check and error return |
| `MySQLPackets` | `packets/mysql.go`: the byte constants and `MySQLGetFile`, with MySQL packet framing (3-byte little-endian payload length, then the sequence id) |
| `JsonValue` | the decoded JSON values the loop and the parsers inspect: strings, objects and anything else |
| `HexParse` | `strings.Replace(s, "0x", "", -1)` and `strconv.ParseUint(s, 16, 16)` as the parser uses them, including the error cases whose value the parser keeps |
| `BleEvent` | the sniffer event record and the time model |
| `BleParsers` | `onProprietary` and `onAdvertisement` |
| `BleStats` | `SnifferStats`, `NewSnifferStats` and what `Print` logs |
| `BleContext` | `SnifferContext`, `NewSnifferContext`, `GetContext` and `Close` |
| `BleSniff` | the `Sniffer` module: `NewSniffer`, `Configure` and the packet loop inside `Start` |

Time is a natural number, and 0 plays the role of Go's zero `time.Time`. Every
instant a clock returns is positive (`Tick`). Things the model does not compute
are parameters:

- The clock reading for each packet.
- The "still running" flag the loop sees.
- The company-name table (`gatt.CompanyIdents`).
- The string form of a time.
- The outcomes of reading parameters, creating the pipe, starting `tshark`,
  opening the source and creating the output file.

The packet loop has two layers:

- Pure functions. `Step` is one pass of the loop body. `Loop` runs the whole
  loop on a finite sequence of arrivals.
- A `Sniffer` class whose methods `HandlePacket` and `PacketLoop` update the
  module's fields. Each method is proved equal to those functions.

The lemmas about `Loop` give its closed forms:

- which arrivals it takes;
- why it stops;
- the counters and timestamps it leaves;
- the events it publishes.

`GetContext` works the same way: it is an imperative method, proved equal to
the pure `ContextFor`, and the lemmas are about `ContextFor`.

## Model

| member | source | states |
|---|---|---|
| `MySQLPackets.GreetingHeader` | net-sniff-bettercap/packets/mysql.go:4-17 | The greeting is 95 bytes and correctly framed: it announces a 0x5b-byte payload with sequence id 0 that starts with protocol version 10. |
| `MySQLPackets.GreetingStrings` | net-sniff-bettercap/packets/mysql.go:5-16 | The server-version string, the second part of the auth-plugin data and the plugin name each contain no NUL byte and end in one at offsets 28, 72 and 94. The auth-data length byte (21) equals the 8 bytes of the first part plus the 13 of the second. |
| `MySQLPackets.ResponsesAreOkPackets` | net-sniff-bettercap/packets/mysql.go:18-25 | Both responses are correctly framed 7-byte OK packets (marker 0) that report autocommit status. They have sequence ids 2 and 4 and differ in no other byte. |
| `MySQLPackets.GetFile` | net-sniff-bettercap/packets/mysql.go:28-33 | The request is the name's length plus one truncated to one byte, then 0, 0, sequence id 1 and the LOCAL INFILE marker 0xfb, then the name's bytes unchanged. |
| `MySQLPackets.GetFilePayload` | net-sniff-bettercap/packets/mysql.go:29-32 | The request has sequence id 1, and its payload is the marker 0xfb followed by the file name. |
| `MySQLPackets.GetFileFramedIff` | net-sniff-bettercap/packets/mysql.go:30 | The request's header is correct if and only if the name is shorter than 255 bytes. |
| `MySQLPackets.GetFileLongNameMisframed` | net-sniff-bettercap/packets/mysql.go:30 | For a 255-byte name, the header announces a payload of 0 bytes while 256 bytes follow. |
| `MySQLPackets.GetFileFramed` | net-sniff-bettercap/packets/mysql.go:28-33 | The corrected request keeps the sequence id, the marker and the name, all at the same offsets. |
| `MySQLPackets.GetFileFramedCorrect` | net-sniff-bettercap/packets/mysql.go:28-33 | The corrected request is correctly framed for every name shorter than the 2^24-1 maximum, and only for those. It is byte-for-byte the original request whenever the name is shorter than 255 bytes. |
| `HexParse.DigitValue` | net-sniff-bettercap/modules/ble_sniff/ble_sniff_parsers.go:55 | The value of a hexadecimal digit (either case) is below 16. |
| `HexParse.Pow16` | net-sniff-bettercap/modules/ble_sniff/ble_sniff_parsers.go:55 | Powers of 16 are at least 1. |
| `HexParse.HexValueBound` | net-sniff-bettercap/modules/ble_sniff/ble_sniff_parsers.go:55 | An n-digit hexadecimal string denotes a value below 16^n. |
| `HexParse.HexValuePrefix` | net-sniff-bettercap/modules/ble_sniff/ble_sniff_parsers.go:55 | A prefix of a hexadecimal string denotes at most the whole string's value. |
| `HexParse.HexValueStep` | net-sniff-bettercap/modules/ble_sniff/ble_sniff_parsers.go:55 | Reading one more digit multiplies the prefix's value by 16 and adds that digit. |
| `HexParse.ParseDigitsFrom` | net-sniff-bettercap/modules/ble_sniff/ble_sniff_parsers.go:55 | Started on a prefix's value, the digit-by-digit parser returns the whole string's value, or 0xFFFF once that value exceeds 16 bits. |
| `HexParse.ParseHex16OfDigits` | net-sniff-bettercap/modules/ble_sniff/ble_sniff_parsers.go:55 | `ParseUint(s, 16, 16)` on a non-empty all-hex string is its value, saturated at 0xFFFF; the range error is discarded. |
| `HexParse.ParseHex16Exact` | net-sniff-bettercap/modules/ble_sniff/ble_sniff_parsers.go:55 | One to four hex digits parse to exactly their value. |
| `HexParse.ParseDigitsBadByte` | net-sniff-bettercap/modules/ble_sniff/ble_sniff_parsers.go:55 | A non-hex byte reached while the value still fits in 16 bits makes the parser return 0, wherever parsing resumes before it. |
| `HexParse.ParseHex16BadByte` | net-sniff-bettercap/modules/ble_sniff/ble_sniff_parsers.go:55 | A syntax error (a non-hex byte before any overflow) parses to 0, the value the parser keeps. |
| `HexParse.RemoveHexPrefixesNoX` | net-sniff-bettercap/modules/ble_sniff/ble_sniff_parsers.go:54 | Removing "0x" everywhere leaves a string with no 'x' unchanged. |
| `HexParse.RemoveHexPrefixesOnce` | net-sniff-bettercap/modules/ble_sniff/ble_sniff_parsers.go:54 | The replacement makes one left-to-right pass over non-overlapping matches, so "00xx" becomes "0x" and is not rescanned. |
| `HexParse.CompanyCodeOfHex` | net-sniff-bettercap/modules/ble_sniff/ble_sniff_parsers.go:54-55 | The company code of `h` or of `0x` + `h`, for one to four hex digits `h`, is the value of `h`. |
| `BleParsers.LookupsSucceed` | net-sniff-bettercap/modules/ble_sniff/ble_sniff_parsers.go:19-51 | When the required fields are present, every lookup on the way to them succeeds with the value it finds. |
| `BleParsers.EmitsIff` | net-sniff-bettercap/modules/ble_sniff/ble_sniff_parsers.go:16-70 | An event is pushed exactly when the advertising address is a string, the advertising data and its entry are objects, and the entry's company id is a string. |
| `BleParsers.NoAddressNoEvent` | net-sniff-bettercap/modules/ble_sniff/ble_sniff_parsers.go:19-23 | Without a string advertising address, no event is pushed. |
| `BleParsers.NoEntryNoEvent` | net-sniff-bettercap/modules/ble_sniff/ble_sniff_parsers.go:26-37 | Without advertising data or an entry object, no event is pushed. |
| `BleParsers.NoCompanyIdNoEvent` | net-sniff-bettercap/modules/ble_sniff/ble_sniff_parsers.go:47-51 | Without a string company id, no event is pushed, even when the data string is present. |
| `BleParsers.EmittedEvent` | net-sniff-bettercap/modules/ble_sniff/ble_sniff_parsers.go:39-69 | The pushed event has the arrival time, protocol "BLE ADVERT", the advertising address as source and "BROADCAST" as destination. Its data is the entry's data string, or "No data could be retrieved". Its message is "Proprietary <name> Data", where the name is looked up by the parsed company code. |
| `BleParsers.MissingDataDefaulted` | net-sniff-bettercap/modules/ble_sniff/ble_sniff_parsers.go:40-44 | A missing or non-string data field still yields an event, and its data is the default text. |
| `BleParsers.CompanyOfHexId` | net-sniff-bettercap/modules/ble_sniff/ble_sniff_parsers.go:47-69 | For a company id "0x" + one to four hex digits, the message names the table's entry for exactly that 16-bit value. |
| `BleParsers.AdvertisementIsProprietary` | net-sniff-bettercap/modules/ble_sniff/ble_sniff_parsers.go:73-76 | `onAdvertisement` behaves exactly as `onProprietary`. |
| `BleStats.NewSnifferStats` | net-sniff-bettercap/modules/ble_sniff/ble_sniff_stats.go:25-34 | Fresh statistics have every counter at 0, started at the current time, and zero first/last packet times. |
| `BleStats.Print` | net-sniff-bettercap/modules/ble_sniff/ble_sniff_stats.go:37-59 | Print reports its figures and always returns a nil error. |
| `BleStats.PrintLabels` | net-sniff-bettercap/modules/ble_sniff/ble_sniff_stats.go:38-48 | Each of the first/last packet labels reads "never" if and only if that time is zero. Otherwise it is the time's string form. |
| `BleStats.NewStatsReport` | net-sniff-bettercap/modules/ble_sniff/ble_sniff_stats.go:25-59 | Fresh statistics print "never" twice and three zero counters. |
| `BleContext.DefaultContext` | net-sniff-bettercap/modules/ble_sniff/ble_sniff_context.go:119-135 | The default context is blank: no reader, no process, not running, empty strings, all flags false, no output file. |
| `BleContext.ContextForConsistent` | net-sniff-bettercap/modules/ble_sniff/ble_sniff_context.go:40-116 | Every context `GetContext` returns, on success or on any error, is consistent. A running `tshark` has a process with the chosen arguments, a source excludes interface and pcap file, a reader exists only with a running process or the source, and an open output file carries the output name. |
| `BleContext.LiveCaptureArgs` | net-sniff-bettercap/modules/ble_sniff/ble_sniff_context.go:52-72 | With no source and no pcap file, the command is `tshark -i <interface> -T json`. |
| `BleContext.PcapReplayArgs` | net-sniff-bettercap/modules/ble_sniff/ble_sniff_context.go:52-75 | With no source and a pcap file, the command is `tshark -T json -r <pcap>`. |
| `BleContext.SourceWins` | net-sniff-bettercap/modules/ble_sniff/ble_sniff_context.go:47-102 | A non-empty source, even one read with an error, means no `tshark` process, an empty interface and an empty pcap file. |
| `BleContext.TSharkRunningIff` | net-sniff-bettercap/modules/ble_sniff/ble_sniff_context.go:52-89 | `tshark` is marked running exactly when there is no source, every parameter before it was read, the pipe was created and the process started. |
| `BleContext.OutputFileIff` | net-sniff-bettercap/modules/ble_sniff/ble_sniff_context.go:104-115 | An output file is open exactly when the reader was set up, a non-empty output was read without error and the file was created; such a context comes with no error. |
| `BleContext.ContextForErrors` | net-sniff-bettercap/modules/ble_sniff/ble_sniff_context.go:47-115 | The error returned is the first failure among the steps `GetContext` takes, in the order it takes them. Those steps are the source lookup; then either the tshark, interface and pcap lookups, the pipe and the process start, or opening the source file; then the output lookup, and creating the file when an output name is given. There is no error exactly when all of them succeed. |
| `BleContext.FirstErrorIsFirst` | net-sniff-bettercap/modules/ble_sniff/ble_sniff_context.go:47-115 | The first failure of a run of steps is none exactly when every step succeeded, and otherwise is the outcome of a step before which every step succeeded. |
| `BleContext.ClosedProperties` | net-sniff-bettercap/modules/ble_sniff/ble_sniff_context.go:163-185 | Closing keeps the context consistent, is idempotent, clears only the output file (the running flag stays), and changes no other field. |
| `BleContext.SnifferContext.constructor` | net-sniff-bettercap/modules/ble_sniff/ble_sniff_context.go:119-135 | A new context object holds the default context. |
| `BleContext.SnifferContext.Close` | net-sniff-bettercap/modules/ble_sniff/ble_sniff_context.go:163-185 | The new state is the closed old state. A kill is attempted exactly when `tshark` was running, and the output is closed exactly when a file was open. |
| `BleContext.GetContext` | net-sniff-bettercap/modules/ble_sniff/ble_sniff_context.go:40-116 | Returns a fresh context together with the error from its step-by-step construction, and both agree with `ContextFor`. |
| `BleSniff.AdvertisingAccessAddressValue` | net-sniff-bettercap/modules/ble_sniff/ble_sniff.go:155 | The matched access address is "0x" followed by the hex spelling of 0x8E89BED6, the BLE advertising-channel access address. |
| `BleSniff.Taken` | net-sniff-bettercap/modules/ble_sniff/ble_sniff.go:120-152 | The loop never takes more arrivals than the channel delivers. |
| `BleSniff.TakenPrefix` | net-sniff-bettercap/modules/ble_sniff/ble_sniff.go:120-152 | When the loop takes a first packet, the arrivals it takes are that packet followed by the arrivals it takes from the rest. |
| `BleSniff.SkippedPacket` | net-sniff-bettercap/modules/ble_sniff/ble_sniff.go:127-146 | A packet that is not an object or has no `btle` object updates only the timestamps and continues the loop. |
| `BleSniff.MatchedPacket` | net-sniff-bettercap/modules/ble_sniff/ble_sniff.go:127-163 | A packet with an access address updates the timestamps and counts as matched. If the address is the advertising one, it also counts as an advertisement and appends the advertisement's event when there is one. |
| `BleSniff.MissingAccessAddress` | net-sniff-bettercap/modules/ble_sniff/ble_sniff.go:148-152 | A `btle` object without a string access address updates the timestamps and then leaves the goroutine. |
| `BleSniff.StoppedPacket` | net-sniff-bettercap/modules/ble_sniff/ble_sniff.go:121-125 | A packet taken after the module stopped running changes nothing and breaks the loop. |
| `BleSniff.LoopEnds` | net-sniff-bettercap/modules/ble_sniff/ble_sniff.go:120-166 | Every packet taken arrived while running, and only the last one can lack an access address. The loop returns exactly on such a packet, breaks exactly on a non-running arrival, and otherwise drains the channel. |
| `BleSniff.LoopCounters` | net-sniff-bettercap/modules/ble_sniff/ble_sniff.go:155-163 | After the loop, the matched count has grown by the number of taken packets with an access address, and the advertisement count by those with the advertising address. The other counters and the start time are unchanged. |
| `BleSniff.LoopTimestamps` | net-sniff-bettercap/modules/ble_sniff/ble_sniff.go:127-132 | The last-packet time is the last taken packet's clock reading. The first-packet time is the first taken packet's reading when none was recorded before, and is left alone otherwise. |
| `BleSniff.LoopEvents` | net-sniff-bettercap/modules/ble_sniff/ble_sniff.go:155-160 | The published events are the earlier ones followed by one event per taken advertisement that `onAdvertisement` accepts, in arrival order. |
| `BleSniff.CountsOrdered` | net-sniff-bettercap/modules/ble_sniff/ble_sniff.go:155-163 | No more advertisements than matched packets are counted, and there are no more events than advertisements. |
| `BleSniff.AdvertEventsAreAdverts` | net-sniff-bettercap/modules/ble_sniff/ble_sniff.go:155-160 | Every event the loop publishes is a "BLE ADVERT" event sent to "BROADCAST". |
| `BleSniff.AdvertisementsBounded` | net-sniff-bettercap/modules/ble_sniff/ble_sniff.go:116-163 | The loop preserves `NumAdvertisements <= NumMatched`. |
| `BleSniff.Sniffer.constructor` | net-sniff-bettercap/modules/ble_sniff/ble_sniff.go:24-31 | A new module is not running. It holds a fresh default context, has no statistics and no packet channel, and has published nothing. |
| `BleSniff.Sniffer.Configure` | net-sniff-bettercap/modules/ble_sniff/ble_sniff.go:89-104 | A running module gets "already started" and is left as it was. Otherwise the error is `GetContext`'s error. On success the module holds the new context; on failure that context is closed and dropped. |
| `BleSniff.Sniffer.HandlePacket` | net-sniff-bettercap/modules/ble_sniff/ble_sniff.go:121-163 | One pass of the loop body changes the statistics, the events and the loop's next move exactly as `Step` does. |
| `BleSniff.Sniffer.PacketLoop` | net-sniff-bettercap/modules/ble_sniff/ble_sniff.go:116-166 | Running the goroutine body leaves the statistics and events `Loop` computes from fresh statistics. The packet channel is cleared unless the body returned early. |

## Left out

- Running `tshark`, opening files, the pipe and the buffered reader are not modelled as I/O. Each outcome is a parameter. The reader is an optional record of what it reads (tshark's output or the source path), the process an optional record of the tshark path and argument list, and the output file the name it was created under.
- The `jstream` decoder and its goroutine are left out. The stream of decoded values is a finite sequence of arrivals.
- Concurrency between the packet goroutine and `Stop` is left out. The running flag the loop sees is part of each arrival.
- The session API is not modelled. That covers `AddParam`, `AddHandler`, `StringParam` internals, `SetRunning`, `Running` and event `Push`. Parameter reads are results with an error and a value, and a pushed event is appended to the module's event list.
- `Start` and `Stop` are reduced to their parts that are modelled. `Start` is `Configure` followed by the goroutine body, and `Stop`'s wrapper around `SetRunning` and `Close` is not modelled separately.
- `Name`, `Description`, `Author` and `SnifferContext.Log` are left out: they have constant strings or logging only.
- `Close`'s log messages are left out, including the inverted success/failure messages around `Process.Kill`. Only the kill attempt is recorded, because the kill itself is I/O.
- `Print`'s log lines are modelled as a report value. The string form of a time is a parameter.
- `gatt.CompanyIdents` is a parameter map; a missing code reads as the empty string, like a Go map.
- `fmt.Sprintf("Proprietary %s Data", name)` is modelled as string concatenation.
- Wall-clock time is a parameter. `onProprietary`'s own `time.Now()` is taken to be the loop's reading for the same packet.
- `SnifferStats` counters do not model uint64 wrap-around, because the counters are unbounded naturals.
- The statistics are held as a value in the module, not behind a shared pointer.

## Findings

| source | as written | input that shows it | evidently intended | confidence | as-written member | corrected member |
|---|---|---|---|---|---|---|
| net-sniff-bettercap/packets/mysql.go:30 | The 3-byte payload length is written as `byte(len(infile)+1), 0x00, 0x00`: only the low byte, truncated. | A 255-byte file name: the header announces a 0-byte payload while 256 bytes follow. | All three little-endian length bytes, so any name up to the packet maximum is framed correctly. | not executed | `MySQLPackets.GetFileLongNameMisframed` | `MySQLPackets.GetFileFramedCorrect` |
