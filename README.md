# KA3005P over USB CDC: a Dafny model

This project models the firmware core that lets a USB-host microcontroller
(an Arduino Due) drive a KA3005P bench power supply, which presents itself
as a USB Communications Device Class (CDC) peripheral. It has two parts:

- **The CDC class driver session** (`cdc.dfy`, module `Cdc`). A `CDC`
  object owns the device's bus address (`bAddress`, 0 when unbound), the
  selected configuration (`bConfNum`), the number of endpoints bound so far
  (`bNumEP`, control endpoint included) and a three-slot endpoint table
  `epInfo` (control, bulk IN, bulk OUT). `Init` enumerates the device. It
  reads the device descriptor through address 0, allocates and sets a new
  address, binds the control endpoint, and walks the configurations. For
  each endpoint the descriptor parser reports, the `EndpointXtract` callback
  runs; the walk stops once three endpoints are bound. `Init` then binds the
  full table and selects the configuration. Every failure after the
  descriptor read is funnelled through `Release`, with two exceptions: a
  failed SET_ADDRESS is undone by hand, and a missing address record returns
  with the address still held.
- **The KA3005P command/response codec** (`psu.dfy`, module `Psu`). A `PSU`
  object owns a CDC session and a cached status byte. It builds ASCII command
  frames in a 15-byte buffer: queries (`VSET1?`), boolean settings (`OUT1`)
  and value settings (`ISET1:1.50`). It parses the first five reply
  characters as a decimal numeral, returning 31.0 when the send fails and
  32.0 when the receive fails. It caches the status byte and decodes it with
  five bit masks.

The USB host controller (`usb_host.dfy`, module `UsbHost`) is foreign code.
It is modelled as a `Host` object. Every request returns an arbitrary result
and appends itself, with that result, to the log `calls`. The driver's
contracts therefore state exactly which requests it made, in which order,
with which arguments, and what it did with each answer.

Values are kept in forms the solver can reason about exactly:

- A set-point value is a whole number of hundredths, so `"%.2f"` formatting
  (`FloatText`) is exact decimal text.
- Reply parsing (`Atof`) returns a `real`.
- Text is `seq<byte>`, and C strings are their characters without the NUL.

Among the properties proved:

- Every `Init` return is pinned down: its return code, the resulting fields
  and the exact log of requests. Past the addressing step these are stated
  in terms of the configuration reads the host answered and the pipes the
  allocator returned. The endpoint table and `bConfNum` are those the
  callbacks leave after those reads, and the log lists each read of
  configuration 0, 1, … at the new address, followed by its allocations.
- `bNumEP` stays within 1..3 over any sequence of callbacks.
- `Release` is idempotent.
- Two-decimal text of any value below 100.00 parses back exactly from the
  five characters `get` reads, and a reply of "31.00" or "32.00" reads like
  an error.
- `sendFloat` sends exactly the frame meant for set points below 10000.00,
  but asks for one byte past its buffer at 1000000.00.
- The status flags decode and encode as inverses, and bits 1–3 are ignored.

## Model

| member | source | states |
|---|---|---|
| Cdc.CDC.constructor | lib/ka3005p/cdc.cpp:27-36 | a new session is unbound (`bAddress` 0) with one endpoint counted; every slot has endpoint number 0, no pipe and clear toggles; slot 0 has packet size 8 and the maximum NAK power; the other slots have size 0 and no NAK wait |
| Cdc.CDC.GetAddress | lib/cdc.h:68-71 | returns `bAddress` and changes nothing |
| Cdc.CDC.Poll | lib/cdc.h:64-67 | returns 0 and changes nothing |
| Cdc.EndpointSlots | lib/ka3005p/cdc.cpp:24-25 | the bulk IN and bulk OUT slot indices are distinct, inside the three-slot table and apart from the control slot |
| Cdc.SlotOf | lib/ka3005p/cdc.cpp:174-179 | the slot the callback fills is one of the three table slots; `SlotOfClassifies` says which one |
| Cdc.SlotOfClassifies | lib/ka3005p/cdc.cpp:174-179 | the callback picks slot 0 exactly for control and isochronous endpoints, slot 1 exactly for bulk or interrupt IN, slot 2 exactly for bulk or interrupt OUT (USB 2.0, section 9.6.6) |
| Cdc.Xtract | lib/ka3005p/cdc.cpp:166-201 | one callback keeps the session well formed: three slots, and a bound count within 1..3, so `bNumEP++` never passes three |
| Cdc.XtractEffect | lib/ka3005p/cdc.cpp:166-201 | with three endpoints bound the callback is a no-op; otherwise it records the configuration, fills the chosen slot's endpoint number (`addr & 0x0F`) and packet size, leaves the other slots alone, and binds (pipe set, count + 1) exactly when the slot is a data slot and the pipe is non-zero |
| Cdc.XtractBinds | lib/ka3005p/cdc.cpp:193-200 | a callback that gets a pipe for a data slot equals the callback without a pipe followed by setting the pipe and raising the count |
| Cdc.BulkPairBinds | lib/ka3005p/cdc.cpp:166-201 | a bulk IN and then a bulk OUT endpoint, both given pipes, bind all three endpoints with those pipes; any later callback changes nothing |
| Cdc.XtractAll | lib/ka3005p/cdc.cpp:166-201 | the callbacks for a run of endpoint reports, in order, keep the session well formed |
| Cdc.XtractAllCount | lib/ka3005p/cdc.cpp:166-201 | over any sequence of callbacks, `bNumEP` never falls, rises by at most one per callback, stays within 1..3, and stops changing once it is 3; the address is never changed |
| Cdc.XtractAllCallsLog | lib/ka3005p/cdc.cpp:185-190 | the only requests the callbacks make are pipe allocations |
| Cdc.ScanSession | lib/ka3005p/cdc.cpp:115-129 | the session after a sequence of configuration reads, each read's endpoints fed to the callbacks in order, is well formed |
| Cdc.ScanSessionCount | lib/ka3005p/cdc.cpp:115-129 | a scan keeps the address, never lowers `bNumEP`, and changes nothing once three endpoints are bound |
| Cdc.ScanCallsLog | lib/ka3005p/cdc.cpp:115-129 | the requests of a scan are configuration reads and pipe allocations only |
| Cdc.CDC.EndpointXtract | lib/ka3005p/cdc.cpp:166-201 | the new session is `Xtract` of the old one with the pipe the allocator returned; the log gains exactly one allocation, for a data slot with fewer than three endpoints bound, with the device address, endpoint number, direction (IN for slot 1, OUT for slot 2) and packet size of the descriptor, and nothing otherwise |
| Cdc.ReleaseIdempotent | lib/ka3005p/cdc.cpp:203-218 | releasing twice leaves the same fields as releasing once |
| Cdc.CDC.Release | lib/ka3005p/cdc.cpp:203-218 | returns 0; afterwards `bAddress` is 0 and `bNumEP` is 1, while the endpoint table (pipe numbers included) and `bConfNum` are kept; it frees the IN pipe, then the OUT pipe, then the address |
| Cdc.CDC.RcvData | lib/ka3005p/cdc.cpp:220-223 | one bulk IN transfer from the device address and slot 1's endpoint number, capacity in and count out; at most that many bytes land at the start of the buffer, and the rest of the buffer is untouched |
| Cdc.CDC.SndData | lib/ka3005p/cdc.cpp:225-228 | one bulk OUT transfer of exactly the given bytes to the device address and slot 2's endpoint number |
| Cdc.CDC.ReadDeviceDescriptor | lib/ka3005p/cdc.cpp:69-77 | the descriptor is read once; record 0 gets its own endpoint table back and keeps the requested speed flag |
| Cdc.CDC.AssignAddress | lib/ka3005p/cdc.cpp:83-105 | SET_ADDRESS failure: the allocated address is freed, `bAddress` is 0 and the code is returned, without `Release`; missing record: the address is kept and the address-not-found-in-pool code returned; success: the speed flag moves from record 0 to the new record |
| Cdc.CDC.Address | lib/ka3005p/cdc.cpp:53-105 | the three early exits (address in use, no record 0, record 0 without a table) return their codes and change nothing; a failed descriptor read ends in `Release` with its code; the other outcomes are those of `AssignAddress`, with EP0's packet size taken from the descriptor; the code is 0 exactly when the address is assigned and enumeration goes on |
| Cdc.CDC.ReadConfiguration | lib/ka3005p/cdc.cpp:117-120 | one configuration read at `bAddress` of configuration `conf`, then the callback for each endpoint the parser reports, in order, whatever the read's code; the new session is `XtractAll` of the old one over those reports and the allocator's pipes; the log is the read followed by exactly the callbacks' allocations |
| Cdc.CDC.ScanRound | lib/ka3005p/cdc.cpp:120-128 | one round of the loop: the reads so far gain this read; the session and the log are those of the scan over all the reads; a successful read adds the new `bNumEP` to the trace |
| Cdc.CDC.ScanConfigurations | lib/ka3005p/cdc.cpp:113-129 | the session afterwards (endpoint table, `bConfNum`, `bNumEP`) is `ScanSession` of the one before over the reads made. The log is exactly those reads, configuration 0, 1, … in order, each followed by its callbacks' allocations. At most as many configurations are read as the device reports. The scan ends after the last one or right after the first read that leaves three endpoints bound. A failed read ends it and its code is returned; every read before it left fewer than three endpoints bound. `trace` records `bNumEP` after each successful read |
| Cdc.CDC.Select | lib/ka3005p/cdc.cpp:131-146 | the three-entry table is bound only when `bNumEP` is 3; success needs only SET_CONFIGURATION, of the configuration the callbacks recorded, to succeed and keeps the session; every failure goes through `Release`; the log is exactly the binding, SET_CONFIGURATION and the release as each outcome reaches them |
| Cdc.CDC.ScanAndSelect | lib/ka3005p/cdc.cpp:113-146 | the scan's session and reads are those of `ScanConfigurations`; a failed configuration read ends in `Release` of that session; otherwise `Select` follows. The final session is the scanned one when configured, its release otherwise, and the log is the scan's followed by `AfterScanCalls` of the outcome; `ScanReport` carries the scan's stopping rule for every outcome |
| Cdc.CDC.Configure | lib/ka3005p/cdc.cpp:107-146 | binds the control endpoint first; a failure there ends in `Release` with no configuration read; otherwise the outcomes of `ScanAndSelect` follow, with the log given by `ConfigureCalls` |
| Cdc.CDC.Init | lib/ka3005p/cdc.cpp:42-164 | every return is one of the real exits, never the internal step tag; the three early exits (address in use, no record 0, record 0 without a table) return their codes and change nothing; every return through `Fail` gives a non-zero code and leaves `bAddress` 0 and `bNumEP` 1; SET_ADDRESS failure is undone by hand; a missing address record keeps the address; 0 is returned exactly when SET_CONFIGURATION succeeds, however many endpoints were bound. Past addressing, the final session is `ScanSession` of the addressed one over the configuration reads, released unless configured, and the log is the addressing requests followed by `ConfigureCalls`; `ScanReport` states the scan's stopping rule, a failed read included |
| Psu.StrLen | lib/ka3005p/psu.cpp:143 | `strlen` is the position of the first NUL: the bytes before it are not NUL |
| Psu.StrLenIs | lib/ka3005p/psu.cpp:141-143 | a string with a NUL at position n and none before it has length n |
| Psu.KeywordsWellFormed | lib/PSU.h:18-26 | every command keyword is three to six uppercase ASCII letters, so it is a NUL-free C string |
| Psu.FramesFit | lib/PSU.h:8-26 | the query frame of a keyword is keyword + 2 bytes, at most 8; the boolean frame is keyword + 1, at most 7; both fit the 15-byte buffer |
| Psu.ChannelsAreDigits | lib/PSU.h:11-14 | the channel constants are the single digits '1' to '4', and the frame uses their first byte |
| Psu.FrameMarkers | lib/PSU.h:29-30 | a query ends in '?'; a value setting has ':' after the channel and ends in a digit; a boolean frame holds neither marker; so no query frame equals a value frame |
| Psu.QueryFrame | lib/ka3005p/psu.cpp:108-114 | a query frame is the keyword, the channel's first byte and '?': two bytes longer than the keyword |
| Psu.BoolFrame | lib/ka3005p/psu.cpp:138-141 | a boolean frame is the keyword followed by one digit, which is '1' exactly when the state is true |
| Psu.FloatFrame | lib/ka3005p/psu.cpp:148-155 | the meant value frame is the keyword, the channel's first byte, ':' and the two-decimal text; its length is the count `sendFloat` passes on |
| Psu.StatusQueryBytes | lib/ka3005p/psu.cpp:59 | the status query is "STATUS?" followed by its NUL, 8 bytes |
| Psu.BoolFrameState | lib/ka3005p/psu.cpp:140-141 | a boolean frame is the keyword followed by '1' for true or '0' for false, so two frames are equal exactly when the states are |
| Psu.FloatText | lib/ka3005p/psu.cpp:155 | `"%.2f"` text is at least four bytes with the point third from the end, and starts with a minus exactly for a negative value |
| Psu.DecimalText | lib/ka3005p/psu.cpp:155 | the whole part of `"%.2f"` text is a non-empty run of digits |
| Psu.DecimalTextValue | lib/ka3005p/psu.cpp:155 | the digits of a whole number denote that number |
| Psu.DecimalTextLength | lib/ka3005p/psu.cpp:155 | a numeral has at most k digits exactly when the number is below 10^k |
| Psu.FloatTextShape | lib/ka3005p/psu.cpp:155 | `"%.2f"` text has a point third from the end, two fractional digits, digits before the point, and a leading minus exactly for negative values |
| Psu.LeadingDigits | lib/ka3005p/psu.cpp:133 | the count of leading digits: all of them digits, and the next byte, if any, is not a digit |
| Psu.Atof | lib/ka3005p/psu.cpp:133 | parsing a reply gives a non-negative value |
| Psu.LeadingDigitsCut | lib/ka3005p/psu.cpp:132-133 | cutting a string at a non-digit does not change its count of leading digits |
| Psu.AtofStopsAt | lib/ka3005p/psu.cpp:132-133 | `atof` stops at a byte that is neither a digit nor the point, so the NUL written at position 5 hides everything after it |
| Psu.SplitAtPoint | lib/ka3005p/psu.cpp:133 | in a numeral with a point, the leading digits are exactly the whole part and the point follows them |
| Psu.ParseNumeral | lib/ka3005p/psu.cpp:133 | whole digits, a point and fractional digits, followed by a non-digit or nothing, read as the whole part plus the fraction |
| Psu.ParseFloatText | lib/ka3005p/psu.cpp:133 | parsing the two-decimal text of h hundredths, followed by any non-digit, gives back h / 100 |
| Psu.FloatTextFitsReply | lib/ka3005p/psu.cpp:132 | the two-decimal text of a value fits the five parsed characters exactly when the value is below 100.00 |
| Psu.ReplyRoundTrip | lib/ka3005p/psu.cpp:123-133 | a successful `get` whose reply starts with the text of a value below 100.00 returns that value; below 31.00 the result differs from both error values |
| Psu.ReplyCutAtFive | lib/ka3005p/psu.cpp:132 | only five characters are parsed, so a reply of 123.45 reads as 123.4 |
| Psu.GetOutcome | lib/ka3005p/psu.cpp:117-133 | `get`'s result is never negative; a failed send gives 31.0 and a failed receive 32.0; `ReplyRoundTrip` and `SentinelsAmbiguous` relate the rest to the reply text |
| Psu.SentinelsAmbiguous | lib/ka3005p/psu.cpp:117-130 | the failed-send result equals a reply of "31.00" and the failed-receive result equals a reply of "32.00" |
| Psu.StrCpy | lib/ka3005p/psu.cpp:111 | `strcpy` writes the characters and a NUL at the start of the buffer and leaves the rest |
| Psu.Snprintf | lib/ka3005p/psu.cpp:155 | `snprintf` writes the text cut to size - 1 bytes plus a NUL, leaves the rest of the buffer, and returns the uncut length |
| Psu.WritePrefix | lib/ka3005p/psu.cpp:108-114 | a zeroed buffer holding the keyword, the channel's first byte and the marker, then zeros |
| Psu.FillFloatBuffer | lib/ka3005p/psu.cpp:148-155 | the buffer `sendFloat` fills, and the write position advanced by `snprintf`'s uncut count |
| Psu.FloatSentExact | lib/ka3005p/psu.cpp:148-156 | when the whole frame needs at most 13 bytes, `sendFloat` sends exactly keyword, channel, ':' and the two-decimal text |
| Psu.SetpointFramesExact | lib/ka3005p/psu.cpp:27-35 | ISET and VSET frames for set points from 0.00 to 9999.99 are at most 13 bytes and sent exactly |
| Psu.FloatOverRead | lib/ka3005p/psu.cpp:155-156 | a set point of 1000000.00 makes `sendFloat` ask the transport for 16 bytes, one past its 15-byte buffer |
| Psu.PSU.constructor | lib/ka3005p/psu.cpp:3-5 | the power supply starts behind a new, unbound CDC session |
| Psu.PSU.Get | lib/ka3005p/psu.cpp:105-134 | sends the query frame; on a failed send it returns 31.0 and reads nothing; on a failed receive it returns 32.0; otherwise it returns `atof` of the first five buffer bytes, which agree with the reply as far as it goes; `status` is unchanged |
| Psu.PSU.SendBool | lib/ka3005p/psu.cpp:136-144 | sends exactly the keyword followed by '1' or '0', reads no reply, and leaves `status` unchanged |
| Psu.PSU.SendFloat | lib/ka3005p/psu.cpp:146-157 | sends the 15-byte buffer's first bytes (keyword, channel, ':', value text cut to fit). The count is prefix + uncut text length, so more than 15 reads past the buffer; `status` is unchanged |
| Psu.PSU.GetStatus | lib/ka3005p/psu.cpp:57-71 | sends "STATUS?" and its NUL, reads up to 10 bytes, and caches and returns the first buffer byte (the first reply byte when there is one) whatever the transfers returned |
| Psu.PSU.IsCVMode | lib/ka3005p/psu.cpp:73-76 | true exactly when bit 0 of the status is set |
| Psu.PSU.IsCCMode | lib/ka3005p/psu.cpp:78-81 | true exactly when bit 0 of the status is clear |
| Psu.PSU.IsBeepOn | lib/ka3005p/psu.cpp:83-86 | true exactly when bit 4 is set |
| Psu.PSU.IsOCPOn | lib/ka3005p/psu.cpp:88-91 | true exactly when bit 5 is set |
| Psu.PSU.IsOutputOn | lib/ka3005p/psu.cpp:93-96 | true exactly when bit 6 is set |
| Psu.PSU.IsOVPOn | lib/ka3005p/psu.cpp:98-101 | true exactly when bit 7 is set |
| Psu.PSU.SetOCP | lib/ka3005p/psu.cpp:7-10 | sends the boolean frame of OCP; `status` is unchanged |
| Psu.PSU.SetOutput | lib/ka3005p/psu.cpp:12-15 | sends the boolean frame of OUT; `status` is unchanged |
| Psu.PSU.SetOVP | lib/ka3005p/psu.cpp:17-20 | sends the boolean frame of OVP; `status` is unchanged |
| Psu.PSU.SetBeep | lib/ka3005p/psu.cpp:22-25 | sends the boolean frame of BEEP; `status` is unchanged |
| Psu.PSU.SetCurrent | lib/ka3005p/psu.cpp:27-30 | sends the ISET value frame as `sendFloat` builds it; `status` is unchanged |
| Psu.PSU.SetVoltage | lib/ka3005p/psu.cpp:32-35 | sends the VSET value frame as `sendFloat` builds it; `status` is unchanged |
| Psu.PSU.GetActualCurrent | lib/ka3005p/psu.cpp:37-40 | the IOUT query and `get`'s outcome |
| Psu.PSU.GetActualVoltage | lib/ka3005p/psu.cpp:42-45 | the VOUT query and `get`'s outcome |
| Psu.PSU.GetCurrent | lib/ka3005p/psu.cpp:47-50 | the ISET query and `get`'s outcome |
| Psu.PSU.GetVoltage | lib/ka3005p/psu.cpp:52-55 | the VSET query and `get`'s outcome |
| Psu.MasksAreBits | lib/PSU.h:33-37 | the five masks are single bits 0, 4, 5, 6 and 7, and no two overlap |
| Psu.DecodeEncode | lib/PSU.h:33-37 | decoding encoded flags gives the flags back |
| Psu.EncodeDecode | lib/PSU.h:33-37 | encoding decoded flags keeps exactly the five meaningful bits of the byte |
| Psu.ReservedBitsIgnored | lib/PSU.h:33-37 | bits 1 to 3 of the status affect no flag |
| Psu.StatusD1 | lib/ka3005p/psu.cpp:73-101 | status 0xD1 means CV mode, beep, output and OVP on, and OCP off |
| Psu.PredicatesDecode | lib/ka3005p/psu.cpp:73-101 | each predicate reads one decoded flag, and CC is the negation of CV |

## Left out

- The USB host library is not part of this model. That covers the `Usb` singleton, the address pool, `UHD_Pipe_Alloc`/`UHD_Pipe_Free`, the control and bulk transfer primitives, and `ConfigDescParser`'s parsing of raw descriptor bytes. `UsbHost.Host` stands in for all of them: its answers are arbitrary, and `getConfDescr` hands the driver an arbitrary finite sequence of endpoint reports.
- The endpoint table lent to record 0 during the device-descriptor read has no effect in the model, because the model's controller never reads it. Only its restoration is modelled.
- The error codes `USB_ERROR_ADDRESS_NOT_FOUND_IN_POOL`, `USB_ERROR_EPINFO_IS_NULL` and `USB_ERROR_CLASS_INSTANCE_ALREADY_IN_USE` come from the USB host library's header, which is not part of this model. The model gives them placeholder values (0xD6, 0xD7, 0xD9) that are only distinct and non-zero, which is all the driver relies on; they are not claimed to be the library's values.
- The address pool's own creation and deletion of device records is not modelled: `UsbHost.Host.AllocAddress`, `FreeAddress` and `SetEpInfoEntry` never add or remove records. So on a successful `Init`, `held in old(host.records)` reflects this fixed pool rather than a promise of the driver.
- `delay(1)` and `delay(50)` are left out: timing is not modelled.
- `RegisterDeviceClass` in the CDC constructor is left out, as is the unused `serial` member. The `CDC` constructor takes the host controller as a parameter.
- Return codes and counts are unbounded naturals. The C code's `uint32_t`/`uint8_t` never wrap on these paths: `bNumEP` stays within 1..3, and the configuration count fits a byte.
- Psu.Atof: parses only a run of digits with at most one point. C `atof` also accepts a sign, leading whitespace, exponents, and inf/nan.
- Psu.FloatText: a value is a whole number of hundredths, so IEEE `float` rounding in `"%.2f"` is not modelled.
- Uninitialised stack buffers (`rx_buffer` in `get` and `getStatus`) start with arbitrary contents.
- Psu.PSU.SendFloat: memory read past `tx_buffer` is arbitrary bytes (`beyond`), since what actually lies there is unknown.
- Psu.PSU.GetStatus: follows the code, which caches `rx_buffer[0]` even when the send or the receive failed. It does not follow the intended behaviour of keeping the previous value on failure. With an empty reply, the cached byte is left-over buffer contents.
- `src/main.cpp` (the application loop) is not part of this model.
