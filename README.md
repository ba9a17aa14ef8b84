# M-Fit core, modelled in Dafny

M-Fit is a suite of factory and field integration tests ("FIT") for a
controller board. Each test is a C program that exercises one device
(serial ports, EEPROM, display, Ethernet, field I/O monitor, memory),
counts the outcome of every attempt in a results record, and reports a
verdict through the common driver in `src/fit.c`. This project models the
core of that suite in Dafny and proves properties of the model:

- `FitTypes`: the C integer types (`u_int16`, `u_int32` wrap-around and
  truncation), `%u`, `%d` and `%x` rendering, and the byte order of
  multi-byte values.
- `FitCrc`: `genCrc`, the table-driven HDLC FCS-16 of RFC 1662
  (appendix C.2), proved equal to the bit-at-a-time definition.
- `FitStatus`: the results record and `ftUpdateTestStatus`, the verdict
  and the log entry it writes.
- `FitArgv`: `compactArgv`, which squeezes NULL entries out of `argv`.
- `FitDump`: `mdmp`/`mdmp1` memory dumps, proved readable back into the
  dumped bytes, and the elapsed-time subtraction of the driver.
- `EepromLayout`, `EepromHeader`, `EepromFit`: the version-1 EEPROM header
  (`eepromFit.h`), its byte image and CRC regions, the default header,
  the header operation schedule of `eeHdrOps`, and the edit helpers of
  `eepromFit.c` (BCD dates, port map, Ethernet and SPI settings).
- `DisplayLib`, `DisplayFit`: the escape-sequence encoding of
  `displayLib.c` (decode is proved to invert encode) and the screens the
  display test writes (character set, special characters, windows).
- `EthernetFit`: interface names, dotted-quad addresses and the address
  arithmetic of the Ethernet test, plus its table of interfaces that are up.
- `FioMonitor`: the field I/O monitor request/response exchange and its
  reply checks.
- `MemoryFit`: the walking-ones passes and the 0xaa/0x55 fill pass of
  `dmtest` over a memory with stuck-at bits.
- `SerialDefs`, `SerialRx`, `SerialLoop`, `SerialFit`: the serial port
  test: the port configuration table, frame patterns, frame reassembly
  for the three receive types, the per-port test loop over frame sizes
  and rates, the coordination between transmitter and receiver, and the
  failure summary.
- `SerialSingle`, `SerialEcho`, `SerialPort`: the single-process echo and
  loop-back tests (`serialEchoFit.c`, `serialPortFit.c`): option parsing,
  opening the ports, and the write/read loop.

Imperative parts of the source (loops over buffers, records updated in
place) are Dafny methods and classes proved against specification
functions; the rest are functions and lemmas. Devices, clocks and the
operating system appear as parameters: a read is the bytes a device has
ready, a `select` is whether it reports the descriptor readable, an
`open` is the descriptor it returns.

## Model

| member | source | states |
|---|---|---|
| FitTypes.Inc32 | src/fit.c:692-694 | a `u_int32` counter increment adds one below the maximum and wraps to 0 at it |
| FitTypes.U16 | src/ftypes.h:36 | a store into a `u_int16` keeps the value modulo 2^16, unchanged when it fits |
| FitTypes.U32 | src/ftypes.h:38 | a store into a `u_int32` keeps the value modulo 2^32, unchanged when it fits |
| FitTypes.LowByte | src/ftypes.h:35 | a store into a `u_int8` keeps the value modulo 256, unchanged when it fits |
| FitTypes.Bytes16Injective | src/eepromFit.h:137-175 | two different `u_int16` values never share their memory bytes |
| FitTypes.Decimal | src/displayLib.c:98-105 | `%u` prints at least one decimal digit, with no leading zero |
| FitTypes.DecimalRoundTrip | src/displayLib.c:98-105 | the digits `%u` prints read back as the number |
| FitTypes.DecimalInjective | src/displayLib.c:98-105 | two numbers print alike under `%u` only if they are equal |
| FitTypes.SignedDecimal | src/displayLib.c:98-105 | `%d` prints a minus sign before the digits of a negative value and the plain digits otherwise |
| FitTypes.Hex | src/fit.c:261-279 | `%0Nx` prints at least N lower-case hexadecimal digits |
| FitTypes.HexRoundTrip | src/fit.c:261-279 | the hexadecimal digits printed read back as the number |
| FitCrc.TableIsRfc1662 | src/fit.c:90-124 | every one of the 256 entries of `fcstab` is eight reflected shift/xor steps of its index with the polynomial 0x8408 |
| FitCrc.UpdateIsBitwise | src/fit.c:249 | one table lookup of the loop body equals eight bitwise FCS-16 steps of the register with the byte xored in |
| FitCrc.CrcIsBitwise | src/fit.c:243-253 | the table-driven fold over any bytes equals the bit-at-a-time FCS-16 of RFC 1662 from the same register |
| FitCrc.CrcAppend | src/fit.c:243-253 | the CRC of a concatenation continues from the CRC register of the first part |
| FitCrc.GenCrcRange | src/fit.c:243-253 | the loop from `saddr` up to but not including `eaddr`, starting at 0xffff, computes the FCS of exactly those bytes |
| FitCrc.GenCrcExtend | src/fit.c:247-250 | one more byte in the range is one more loop body |
| FitStatus.Bump | src/fit.c:692-747 | exactly the chosen counter changes, by a wrapping `u_int32` increment |
| FitStatus.EachTokenCountedOnce | src/fit.c:631-747 | each outcome token is counted in exactly one of the caller's record and the global record |
| FitStatus.SharedCounter | src/fit.c:712-719 | two different tokens share a counter only for transmit timeout and transmit failure |
| FitStatus.VerdictMeaning | src/fit.c:643-672 | failed iff some failure counter is non-zero; passed iff none is and the pass count is non-zero; otherwise "did not run correctly" |
| FitStatus.FreshRecordDidNotRun | src/fit.c:666-672 | a record that counted nothing gives "did not run correctly" |
| FitStatus.FailureSticks | src/fit.c:643-665 | a pass or an informational line never turns a failed verdict into a pass |
| FitStatus.Upper | src/fit.c:755-757 | the log line keeps its length and every lower-case letter becomes upper case, nothing else changes |
| FitStatus.PadRight | src/fit.c:602 | `%-9s` pads on the right with blanks to the width and keeps the text as a prefix |
| FitStatus.PadZeros | src/fit.c:602 | `%4.4lu` pads on the left with zeros to the width and keeps the digits as a suffix |
| FitStatus.Results.Reset | src/fit.c:1024 | the record is all zeros afterwards |
| FitStatus.Results.constructor | src/fit.c:85 | a results record starts with every counter zero |
| FitStatus.Results.Increment | src/fit.c:693 | the record is the old one with one counter bumped |
| FitStatus.UpdateTestStatus | src/fit.c:614-767 | returns `ret`; counts it in the caller's record or the global one (which may alias); the report is the one `ReportOf` gives for the old counts |
| FitStatus.AttemptsAreSilent | src/fit.c:692-753 | per-attempt tokens return before anything is printed or logged |
| FitStatus.CompleteReportsVerdict | src/fit.c:636-691 | completing a test logs an entry; it goes to the failure log exactly when a failure counter is non-zero or no pass was counted |
| FitArgv.Compacted | src/fit.c:777-802 | the compaction keeps only non-NULL entries and is no longer than the vector |
| FitArgv.NullCount | src/fit.c:777-802 | the NULL entries and the kept entries add up to the whole vector |
| FitArgv.FirstNull | src/fit.c:786-792 | the index of the first NULL: every entry before it is non-NULL |
| FitArgv.PassRemovesOneNull | src/fit.c:786-792 | a loop pass that meets a NULL keeps the non-NULL entries in order and drops exactly one NULL |
| FitArgv.PassShape | src/fit.c:786-792 | a pass moves every entry after the first NULL down one slot and leaves a NULL at the end |
| FitArgv.DropOneNull | src/fit.c:786-792 | removing one NULL from between two parts keeps the compaction and lowers the NULL count by one |
| FitArgv.CompactPass | src/fit.c:786-792 | the array after the loop is one pass of the old contents; `nullFound` counts the entries from the first NULL on |
| FitArgv.PassPointwise | src/fit.c:786-792 | the entry-by-entry description of a pass is the same as the split description |
| FitArgv.CompactArgv | src/fit.c:777-802 | on success the result is the number of non-NULL entries, which now sit in order at the front, followed by NULLs; beyond the vector nothing changes |
| FitDump.Hex2 | src/fit.c:273 | `%2.2x` prints two characters |
| FitDump.Hex2RoundTrip | src/fit.c:273 | the two hex digits of a byte read back as that byte |
| FitDump.MdmpPiece | src/fit.c:267-274 | one loop iteration prints the offset line every 32 bytes, a blank every 16, then the byte |
| FitDump.MdmpPrint | src/fit.c:261-279 | `mdmp` prints the dump text of the range followed by a newline |
| FitDump.Mdmp1Piece | src/fit.c:289-302 | one `mdmp1` iteration prints the offset line every 32 bytes, else a blank every 4, then the byte |
| FitDump.Mdmp1Print | src/fit.c:280-305 | `mdmp1` prints its heading and then the dump grouped by 4 |
| FitDump.UndumpPiece | src/fit.c:267-274 | reading back one printed piece gives its byte and continues at the next offset |
| FitDump.UndumpDump | src/fit.c:261-305 | both dump styles show every byte of the range in order: reading the text back gives the bytes |
| FitDump.EmptyDump | src/fit.c:276-278 | the dump of an empty range is a lone newline |
| FitDump.Elapsed | src/fit.c:1036-1041 | the difference, in nanoseconds, is the end minus the start; normalised inputs give a normalised result |
| EepromLayout.ModDArrayBytes | src/eepromFit.h:76-84 | an array of module descriptions occupies 18 bytes per entry, back to back |
| EepromLayout.EthDArrayBytes | src/eepromFit.h:86-101 | an array of Ethernet descriptions occupies 20 bytes per entry |
| EepromLayout.PortDArrayBytes | src/eepromFit.h:126-135 | an array of port descriptions occupies 6 bytes per entry |
| EepromLayout.Crc1Region | src/eepromFit.c:1775 | the first CRC covers the bytes from the start of the header up to `crc1` |
| EepromLayout.Crc2Region | src/eepromFit.c:1871 | the second CRC covers the bytes from `latitude` up to `crc2` |
| EepromLayout.Image | src/eepromFit.h:137-175 | the packed header is 256 bytes: the first CRC region, `crc1`, the second CRC region, `crc2`, then the user data, at their offsets |
| EepromHeader.VerifyHdrMeaning | src/eepromFit.c:2053-2077 | the verdict is -1 when the first CRC does not match its region, else -2 when the second does not, else 0 |
| EepromHeader.RegionsSkipCrcs | src/eepromFit.c:1772-1779 | changing either CRC field changes neither CRC region |
| EepromHeader.SetCrcsVerify | src/eepromFit.c:1772-1875 | after `setCrc1` and `setCrc2`, in either order, the header verifies |
| EepromHeader.SetCrc1Verify | src/eepromFit.c:1772-1779 | `setCrc1` repairs a header whose only fault was the first CRC |
| EepromHeader.SetCrcsIdempotent | src/eepromFit.c:1772-1875 | on a header that verifies, `setCrc1` and `setCrc2` change nothing |
| EepromHeader.ModelName | src/eepromFit.c:100 | the 8-byte model field holds the seven characters and a NUL |
| EepromHeader.DefaultHeaderVerifies | src/eepromFit.c:77-326 | the default header verifies and differs from the default fields only in its two CRCs |
| EepromHeader.DefaultPortsValid | src/eepromFit.c:180-185 | every default port description has an id, mode and speed that `setPort` accepts |
| EepromHeader.DefaultDatesValid | src/eepromFit.c:86-93 | the default version dates are valid BCD month, day and four-digit year |
| EepromHeader.DefaultHeaderChecks | src/eepromFit.c:77-326 | the default header holds 4 modules, 2 Ethernet devices and 11 ports, all accepted by the editor's checks |
| EepromHeader.SetMap | src/eepromFit.h:103-123 | writing one of the five port maps sets that map and leaves the other four alone |
| EepromHeader.DefaultPortmaps | src/eepromFit.c:201-207 | the default maps name exactly the ports their comments list (sp5s for SB1, sp3s for SB2 and TS2) |
| EepromHeader.PortNamesOf0x07e5 | src/eepromFit.c:201 | 0x07e5 names sp1, sp2, sp3s, sp4, sp5s, sp6, sp8 and sp8s, as the comment says |
| EepromHeader.PortNamesSingle | src/eepromFit.c:1339-1398 | a map with one bit set names exactly that port |
| EepromHeader.SetPortsAsWrittenCounterexample | src/eepromFit.c:1474-1479 | as written, `setPorts` stores 2 and the count no longer matches the eleven descriptions |
| EepromHeader.SetPorts | src/eepromFit.c:1474-1479 | corrected: the count is the number of port descriptions, 11, and nothing else changes |
| EepromHeader.ComDropAsWrittenCounterexample | src/eepromFit.c:1829-1843 | as written, setting the communication drop overwrites the controller id and `com_drop` keeps its value |
| EepromHeader.SetComDrop | src/eepromFit.c:1835-1843 | corrected: the value typed, truncated to 16 bits, goes into `com_drop`, and nothing else changes |
| EepromHeader.SetSpi3use | src/eepromFit.c:1292-1302 | the code typed, truncated to 8 bits, goes into `spi3use`, and nothing else changes |
| EepromHeader.SetSpi4use | src/eepromFit.c:1327-1337 | the code typed, truncated to 8 bits, goes into `spi4use`, and nothing else changes |
| EepromHeader.Session | src/eepromFit.c:766-777 | an editing loop over a table of descriptions keeps the table's length |
| EepromHeader.SessionUntouched | src/eepromFit.c:766-779 | a description the loop never selects is unchanged |
| EepromHeader.SessionKeeps | src/eepromFit.c:766-937 | a property every single edit preserves holds of every description after the loop |
| EepromHeader.PortSessionKeepsValid | src/eepromFit.c:1584-1674 | `setPort` keeps every port description recognised |
| EepromHeader.EthdevSessionKeepsTypes | src/eepromFit.c:1130-1267 | the corrected `setEthdev` never leaves an Ethernet type above 5 behind |
| EepromHeader.ErasedImage | src/eepromFit.c:2198-2200 | `memset(mp, 0xff, sz)` gives the header whose 256 bytes are all 0xff, in either byte order |
| EepromHeader.Rank | src/eepromFit.c:2198-2219 | the position of an operation in the fixed order of `eeHdrOps` |
| EepromHeader.Schedule | src/eepromFit.c:2196 | no operation runs on a memory smaller than the header |
| EepromHeader.RequestedMembers | src/eepromFit.c:2198-2219 | an operation is requested exactly when it is in the list and its flag bit is set |
| EepromHeader.RequestedOrdered | src/eepromFit.c:2198-2219 | picking the flagged operations keeps their order |
| EepromHeader.OrderRanked | src/eepromFit.c:2198-2219 | the fixed order lists every operation once, in rank order |
| EepromHeader.ScheduleMeaning | src/eepromFit.c:2191-2222 | an operation runs iff its flag is set and the memory holds a header; they run in the order INIT, DEFAULT, LOAD, EDIT, SAVE, VERIFY, PRINT, each at most once |
| EepromHeader.RunSavesVerified | src/eepromFit.c:2136-2148 | `eeSaveHdr` only ever offers an image that verifies |
| EepromHeader.RunAppend | src/eepromFit.c:2191-2222 | running two lists of operations is running the second after the first |
| EepromHeader.ScheduleSplit | src/eepromFit.c:2198-2219 | the run splits into the operations that produce the header and those that save, verify and print it |
| EepromHeader.RunFinish | src/eepromFit.c:2210-2218 | SAVE, VERIFY and PRINT leave the header alone; SAVE offers it iff it verifies; VERIFY records the verdict |
| EepromHeader.PreparedExits | src/eepromFit.c:2119-2129 | a loaded image that fails to verify ends the program: nothing after LOAD runs |
| EepromHeader.PreparedHeader | src/eepromFit.c:2198-2203 | without LOAD and EDIT, DEFAULT decides the header; INIT alone leaves it erased |
| EepromHeader.DefaultThenVerify | src/eepromFit.c:2191-2222 | `-d -v` on a large enough memory builds the default header, verifies it with 0 and offers it for saving |
| EepromHeader.InitErases | src/eepromFit.c:2198-2200 | INIT alone leaves every header byte 0xff, and that is what SAVE and VERIFY see |
| EepromHeader.BadLoadAborts | src/eepromFit.c:2079-2134 | a loaded image that fails to verify ends the program before anything is saved or verified |
| EepromHeader.Header.SetCrc1 | src/eepromFit.c:1772-1779 | the header afterwards has `crc1` set to the CRC of its first region, and that value is returned |
| EepromHeader.Header.SetCrc2 | src/eepromFit.c:1868-1875 | the header afterwards has `crc2` set to the CRC of its second region |
| EepromHeader.Header.SetPortCount | src/eepromFit.c:1474-1479 | the header afterwards is the corrected `setPorts` of the old one |
| EepromHeader.Header.SetComDropField | src/eepromFit.c:1835-1843 | the header afterwards is the corrected `setCom_drop` of the old one |
| EepromHeader.Header.SetPortmap | src/eepromFit.c:1400-1455 | the chosen map gains the bit of each selection 1 to 11 until the first other entry; the other maps are unchanged |
| EepromHeader.Header.SetModule | src/eepromFit.c:755-938 | corrected: the module descriptions are those the editing loop produces from the entries |
| EepromHeader.Header.SetEthdev | src/eepromFit.c:1130-1267 | the Ethernet descriptions are those the corrected editing loop produces |
| EepromHeader.Header.SetPort | src/eepromFit.c:1584-1674 | the port descriptions are those the editing loop produces |
| EepromHeader.Header.SetDefault | src/eepromFit.c:77-326 | the header is the default header with both CRCs set |
| EepromHeader.Header.HdrOps | src/eepromFit.c:2191-2222 | header, saved image, verdict and exit are those of running the schedule from the old header |
| EepromHeader.Header.Prepare | src/eepromFit.c:2198-2209 | the INIT, DEFAULT, LOAD and EDIT steps give the prepared state |
| EepromHeader.Header.PrepareStep | src/eepromFit.c:2198-2209 | one flag test of INIT, DEFAULT, LOAD or EDIT gives the state of that step |
| EepromHeader.Header.Finish | src/eepromFit.c:2210-2218 | the SAVE, VERIFY and PRINT steps give the state of running them |
| EepromFit.To2DigitBcd | src/eepromFit.c:359-368 | the result is two BCD digits whose value is the input truncated to 8 bits, modulo 100 |
| EepromFit.To2DigitBcdRoundTrip | src/eepromFit.c:359-368 | below 100 the BCD reads back as the input; below 10 the code is the number itself |
| EepromFit.To2DigitBcdDigits | src/eepromFit.c:359-368 | a two-digit number is stored with its digits one per nibble |
| EepromFit.To4DigitBcdAsWrittenLosesDigits | src/eepromFit.c:376-387 | as written, the year 2017 is stored as 0x37, which reads back as 37 |
| EepromFit.To4DigitBcdAsWrittenNeverPacked | src/eepromFit.c:376-387 | as written, every input with a non-zero thousands digit differs from its packed BCD |
| EepromFit.To4DigitBcd | src/eepromFit.c:376-387 | corrected: four BCD digits whose value is the input truncated to 16 bits, modulo 10000 |
| EepromFit.To4DigitBcdDigits | src/eepromFit.c:376-387 | corrected: a four-digit year is stored with its digits one per nibble |
| EepromFit.SetYear | src/eepromFit.c:814-836 | corrected: the year menu always stores a valid four-digit BCD year |
| EepromFit.SetYearMenuAgrees | src/eepromFit.c:817-836 | corrected: choosing 1 to 5 from the menu gives the same stamp as typing 2017, 2014, 2009, 2007 or 2004 |
| EepromFit.LastBcdDay | src/eepromFit.c:640-674 | a month has a last day exactly when it is a valid BCD month, and that day is 0x29 to 0x31 |
| EepromFit.CheckDay | src/eepromFit.c:640-674 | `getModule` shows the day unchecked iff the month is not recognised, and shows it as valid iff it lies between 1 and the month's last day |
| EepromFit.SetDateAsWrittenCounterexample | src/eepromFit.c:846-908 | as written, October typed as 16 is stored as 0x16, an invalid month, and the 31st typed as 49 is stored as 0x49, an invalid day |
| EepromFit.SetMonth | src/eepromFit.c:846-864 | corrected: a month menu code is stored as that BCD month; any other entry leaves the month alone |
| EepromFit.SetDayAgreesWithCheck | src/eepromFit.c:874-908 | corrected: every day the editor accepts is one `getModule` shows as valid, and every other entry leaves the day alone |
| EepromFit.CopyModel | src/eepromFit.c:803 | `strncpy(model, text, 7)`: the typed characters, NUL-filled up to seven bytes, the eighth byte untouched |
| EepromFit.EditModule | src/eepromFit.c:779-937 | corrected: one pass of `setModule`: none when the location is above 6, else every field as the entry gives it |
| EepromFit.IpRoundTrip | src/eepromFit.c:1171-1194 | an address entered as four octets below 256 is printed back as those octets |
| EepromFit.MacRoundTrip | src/eepromFit.c:1196-1201 | the MAC is printed in the order it was typed, though stored reversed |
| EepromFit.EditEthdevAsWrittenCounterexample | src/eepromFit.c:1160-1169 | as written, a router can be edited into type 9, and a stored type 9 can never be edited away |
| EepromFit.EditEthdev | src/eepromFit.c:1155-1266 | corrected: the typed type is stored when at most 5 and the interface when at most 4; the three addresses and the MAC are as entered |
| EepromFit.EditEthdevKeepsTypeInRange | src/eepromFit.c:1155-1266 | corrected: the editor never stores a type above 5 unless one was there |
| EepromFit.EditPort | src/eepromFit.c:1584-1674 | one pass of `setPort`: id stored when at most 13, mode when at most 4, speed when it is an accepted rate; rejected fields unchanged |
| EepromFit.EditPortKeepsValid | src/eepromFit.c:1584-1674 | editing keeps a recognised port description recognised |
| EepromFit.GetPortmap | src/eepromFit.c:1339-1398 | the loop prints the names of the set bits, lowest first |
| EepromFit.PortNamesFromBits | src/eepromFit.c:1339-1398 | a port name is listed exactly when its bit is set |
| EepromFit.PortNamesMeaning | src/eepromFit.c:1339-1398 | `getPortmap` names a device exactly when its bit is set |
| EepromFit.Selections | src/eepromFit.c:1407-1454 | the selections acted on are the prefix before the first entry outside 1 to 11 |
| EepromFit.SetPortmapBits | src/eepromFit.c:1400-1455 | a bit is set afterwards iff it was set before or was selected: ports are only ever added |
| EepromFit.SetBitBound | src/eepromFit.c:1416-1449 | setting a bit below 16 keeps the map within a `u_int16` |
| DisplayLib.WriteOut | src/displayLib.c:42-66 | the string reaches the display when it is open, and nothing does when `fpd` is 0 |
| DisplayLib.SetToggle | src/displayLib.c:108-183 | each on/off setter sends one sequence that reads back as that setting, switched as asked |
| DisplayLib.Truncate | src/displayLib.c:102 | `snprintf` into `size` bytes keeps at most `size - 1` characters |
| DisplayLib.MoveCursor | src/displayLib.c:98-105 | the sequence fits the 12-byte buffer, and reads back as the move to (x, y) exactly when the two numbers have at most 7 digits together |
| DisplayLib.MoveCursorHome | src/displayLib.c:92-95 | the sequence reads back as "cursor home" |
| DisplayLib.ClearScreen | src/displayLib.c:83-89 | the output reads back as "erase screen" then "cursor home" |
| DisplayLib.SetTabStop | src/displayLib.c:186-189 | the sequence reads back as "set tab stop" |
| DisplayLib.ClearTabStop | src/displayLib.c:192-201 | stops 0 to 3 give a sequence that reads back as clearing that stop; any other number sends nothing |
| DisplayLib.SetBacklightTime | src/displayLib.c:204-213 | 0 to 63 minutes give a sequence that reads back as that timeout; any other value sends nothing |
| DisplayLib.ResetDisplay | src/displayLib.c:229-236 | the sequence reads back as "reset" |
| DisplayLib.InitDisplay | src/displayLib.c:69-80 | the output reads back as autoscroll, autowrap, cursor, reverse video, underline and blink switched off, in that order, then erase and home |
| DisplayLib.InitDisplayCommands | src/displayLib.c:69-80 | the initialisation is the six toggles switched off, in order, followed by the screen clear |
| DisplayLib.DecodeEncode | src/displayLib.c:83-236 | every command's sequence reads back as that command, whatever follows it |
| DisplayLib.EncodeAllDecodes | src/displayLib.c:83-236 | a stream of sequences reads back as the commands that produced it, in order |
| DisplayLib.TruncatedMoveUndecodable | src/displayLib.c:100-102 | a move cut short by the 12-byte buffer loses its final `f` and reads back as nothing |
| DisplayFit.DecodeCharSequence | src/displayFit.c:854-1020 | one byte for a newline or printable key, five for "ESC [ K" sequences, three for the other escapes, -1 exactly for a sequence no key sends; each key's label |
| DisplayFit.Ss3KeysDecode | src/displayFit.c:871-906 | every "ESC O" key of the table decodes to its label and takes 3 bytes |
| DisplayFit.CsiKeysDecode | src/displayFit.c:907-1020 | every "ESC [" arrow key decodes to its label and takes 3 bytes |
| DisplayFit.Ss3UnknownDecode | src/displayFit.c:871-906 | an "ESC O" with an unknown final byte is reported as unknown and still takes 3 bytes |
| DisplayFit.KeyLabelsDistinct | src/displayFit.c:871-1020 | no two keys share a label |
| DisplayFit.FirstReport | src/displayFit.c:349-399 | the first position 0 to 3 holding an "ESC [ x R" report, and none before it |
| DisplayFit.M50BeforeTerminal | src/displayFit.c:322-346 | the M50 reply also starts like a terminal's, and the M50 test wins because it comes first |
| DisplayFit.ClassifyKnown | src/displayFit.c:322-399 | the screen is unchanged or one of the known screens, with 4, 8 or 16 lines |
| DisplayFit.ScanReports | src/displayFit.c:352-399 | the loop stops at the first report, which is the one `FirstReport` names |
| DisplayFit.ReadFrom | src/displayFit.c:291-316 | the read loop returns a positive count or -1 |
| DisplayFit.ReadFromMeaning | src/displayFit.c:291-316 | the loop succeeds iff one of the first five tries reads something and every try before it failed with a retryable error; it then returns that try's count |
| DisplayFit.ReadReply | src/displayFit.c:291-316 | the loop's result is the one `ReadFrom` gives |
| DisplayFit.Panel.GetScreenSize | src/displayFit.c:277-400 | a read loop that gives up returns -1 and leaves the screen as it was; otherwise 0 and the screen classified from the reply |
| DisplayFit.Panel.constructor | src/displayFit.c:123-126 | before any reply the screen is the unknown 8-line screen |
| DisplayFit.BannerCentred | src/displayFit.c:266-268 | the text is centred: at most one cell more on the right than on the left |
| DisplayFit.EndBanner | src/displayFit.c:258-275 | the cursor is moved to row 3, column 5, then the 32-character text is written |
| DisplayFit.WriteSpecialChar | src/displayFit.c:515-524 | nothing is sent for a number outside 1 to 8 |
| DisplayFit.WriteSpecialCharDecodes | src/displayFit.c:515-524 | for 1 to 8 the sequence reads back as that special character |
| DisplayFit.SpecialRunInRange | src/displayFit.c:527-541 | within 1 to 8 a run shows exactly the characters asked for, in order |
| DisplayFit.SpecialRunBounded | src/displayFit.c:527-541 | a run never shows more than asked, and only characters 1 to 8 |
| DisplayFit.WriteSpecialChars | src/displayFit.c:527-541 | the output is the rendering of the run of special characters |
| DisplayFit.SendSpecials | src/displayFit.c:534-539 | the loop sends the `n` characters from `k` on, each only when it is 1 to 8 |
| DisplayFit.SpecialCharIsBox | src/displayFit.c:507-510 | special character `i` is a box `i` pixels wide: pixel `j` of each row is lit iff `j < i` |
| DisplayFit.InitSpecialChars | src/displayFit.c:497-512 | characters 1 to 8 are defined in order |
| DisplayFit.AsciiString | src/displayFit.c:625-627 | corrected: the 96 printable characters, space to DEL, in code order |
| DisplayFit.AsciiAsWrittenMissesBacktick | src/displayFit.c:627 | as written, the string agrees with the printable set except at index 64, an apostrophe where the grave accent belongs |
| DisplayFit.WindowCell | src/displayFit.c:634-664 | cell `c` of the window at `p` is position `p + c` of the cycle, wrapping once |
| DisplayFit.CharSetLineWindow | src/displayFit.c:634-664 | line `indx` of the first loop, padded with special characters and the start of the string, is the 40-cell window at `indx` |
| DisplayFit.CharSetLineFull | src/displayFit.c:634-664 | a line the string fills on its own is the 40-cell window of the cycle |
| DisplayFit.CharSetLineShort | src/displayFit.c:634-664 | a line the string leaves short by at most 8 cells is completed by special characters |
| DisplayFit.CharSetLineLong | src/displayFit.c:634-664 | a line short by more than 8 cells holds all 8 special characters and then the start of the string |
| DisplayFit.SweepLineWindow | src/displayFit.c:667-679 | line `indx` of the second loop is the window at `96 + indx`: the sweep carries the scroll on |
| DisplayFit.LinesSplit | src/displayFit.c:634-664 | the output of a range of lines is the output of its two halves |
| DisplayFit.PrintCharLine | src/displayFit.c:636-663 | one iteration of the first loop prints line `indx` |
| DisplayFit.PrintCharLines | src/displayFit.c:634-664 | the first loop prints lines 0 to `lines - 1` while the test goes on, and nothing otherwise |
| DisplayFit.PrintSweepLine | src/displayFit.c:669-678 | one iteration of the second loop prints line `96 + indx` |
| DisplayFit.PrintSweep | src/displayFit.c:667-679 | the second loop prints the eight sweep lines when it runs |
| DisplayFit.PrintFeeds | src/displayFit.c:682-686 | the third loop prints one line feed per screen line when it runs |
| DisplayFit.PrintFullCharSetAsWritten | src/displayFit.c:623-687 | the `keepGoing` guards as written: the scroll while the test goes on, and the sweep and feeds only once it has stopped; the lines are drawn from the corrected character string |
| DisplayFit.PrintFullCharSet | src/displayFit.c:623-687 | corrected: the scroll, the sweep and the feeds, all while the test goes on |
| DisplayFit.FullCharSetAsWrittenSkipsSweep | src/displayFit.c:667-686 | as written, an uninterrupted run shows only the scroll, never the sweep, and falls short of the corrected output |
| DisplayFit.FullCharSetScrollsThrough | src/displayFit.c:623-687 | corrected: with the full string, every window of the cycle is shown once and in order, then the feeds; an interrupted run shows nothing |
| DisplayFit.FullCharSetContinues | src/displayFit.c:623-687 | corrected: an uninterrupted run shows the scroll, the whole sweep and the closing feeds |
| EthernetFit.Octets | src/ethernetFit.c:763-764 | an address has four dotted octets |
| EthernetFit.Broadcast | src/ethernetFit.c:680-683 | the broadcast address keeps the network part of the address and sets every host bit |
| EthernetFit.BroadcastIsTop | src/ethernetFit.c:680-683 | no address of the network lies above the broadcast address bit for bit |
| EthernetFit.DefaultNetmask | src/ethernetFit.c:53 | `inet_addr("255.255.0.0")` is the word whose bytes are 255, 255, 0, 0 |
| EthernetFit.IncSecondOctetBigEndian | src/ethernetFit.c:755-760 | on a big-endian target, adding `INC_SECOND_OCTET` raises the second octet by one and leaves the others, while it is below 255 |
| EthernetFit.IncSecondOctetLittleEndian | src/ethernetFit.c:755-760 | on a little-endian target the same addition raises the third octet instead |
| EthernetFit.Dotted | src/ethernetFit.c:763-764 | `inet_ntoa` text is at most 15 characters |
| EthernetFit.Take3 | src/ethernetFit.c:776 | `snprintf(p, 4, "%s", s)` keeps at most the first three characters |
| EthernetFit.FindDot | src/ethernetFit.c:769-773 | `strstr` finds the first '.' at or after the start, and none lies before it |
| EthernetFit.PingAddress | src/ethernetFit.c:763-776 | the ping address is the dotted address with the configured octet after the third '.' |
| EthernetFit.PingAddressFields | src/ethernetFit.c:763-776 | the ping address has four fields: the first three octets of the new address, read back as their values, then the configured octet |
| EthernetFit.FieldsOfFour | src/ethernetFit.c:769-773 | four fields without '.' joined by '.' split back into those four |
| EthernetFit.ImportDefaultSettings | src/ethernetFit.c:749-809 | both interfaces get netmask 255.255.0.0; eth0:5's address and broadcast are raised by `INC_SECOND_OCTET` once, eth1:5's twice; each ping address is built from the new address |
| EthernetFit.DefaultSettingsBigEndian | src/ethernetFit.c:749-809 | on a big-endian target, eth0 at a.b.c.d gives eth0:5 a.(b+1).c.d and eth1:5 a.(b+2).c.d |
| EthernetFit.ImportFromFile | src/ethernetFit.c:641-747 | a file that cannot be opened fails; a missing or empty line fails at the first such line; success means all six lines were read, with each broadcast derived from its address and netmask |
| EthernetFit.FirstMissing | src/ethernetFit.c:654-734 | the first missing or empty line, with every line before it present |
| EthernetFit.TakeAtMost | src/ethernetFit.c:597-601 | `strncpy` into an `n`-byte buffer keeps at most `n` characters |
| EthernetFit.ParseEthArguments | src/ethernetFit.c:574-639 | the options are applied in order until help, an unknown option or a `-t` argument `sscanf` converts nothing of, which give -1; an empty or blank `-t` (EOF) keeps the timeout and the parse goes on; a missing ping octet becomes "254" |
| EthernetFit.TimeoutOptionStops | src/ethernetFit.c:604-612 | a `-t` stops the parse exactly when `sscanf` returns 0, sets the timeout exactly when it returns 1, and otherwise passes on to the next option with nothing changed |
| EthernetFit.BlankTimeoutGoesOn | src/ethernetFit.c:604-612 | a blank `-t` followed by `-o 7` still sets the octet, and the parse succeeds |
| EthernetFit.NoOctetOptionLeavesDefault | src/ethernetFit.c:617-622 | without `-o` the octet stays empty, so the default "254" is used |
| EthernetFit.BaseName | src/ethernetFit.c:368-372 | the interface name is cut at its first ':' |
| EthernetFit.Record | src/ethernetFit.c:397-404 | recording keeps the table's size |
| EthernetFit.RecordFirstEmpty | src/ethernetFit.c:397-404 | recording fills the first empty slot and changes no other |
| EthernetFit.RecordFull | src/ethernetFit.c:397-404 | a full table is left as it is |
| EthernetFit.UpTable.constructor | src/ethernetFit.c:63 | the table of brought-up names starts with both slots empty |
| EthernetFit.UpTable.SetUp | src/ethernetFit.c:348-410 | returns 0 iff both flag calls succeed, and then records the base name in the first empty slot; otherwise the table is unchanged |
| EthernetFit.UpTable.SetDown | src/ethernetFit.c:456-473 | every recorded name is taken down in slot order; the result is -1 iff one of those calls failed, else 0 |
| EthernetFit.Recorded | src/ethernetFit.c:463-470 | the non-empty slots, in order |
| EthernetFit.PingResult | src/ethernetFit.c:475-572 | the ping passes iff both forks worked and `wait` returned the ping process; it returns -1 iff both forks worked and `wait` returned something else |
| EthernetFit.ErrorString | src/ethernetFit.c:902-921 | the error text is empty iff neither ping failed |
| EthernetFit.ErrorStringNames | src/ethernetFit.c:902-921 | the error text names exactly the interfaces whose ping failed |
| FioMonitor.ReadCellOfCell | src/fioMonitorFit.c:180-189 | every cell shows its byte, highlighted iff the byte is non-zero or is the monitor register |
| FioMonitor.MdmpvPiece | src/fioMonitorFit.c:161-190 | one iteration prints its separator and then the cell |
| FioMonitor.Mdmpv | src/fioMonitorFit.c:152-194 | the heading, then the cells with their separators, then a newline |
| FioMonitor.TxResult | src/fioMonitorFit.c:196-225 | the transmit passes iff `write` returned the command's size, and fails otherwise |
| FioMonitor.ReceiveFrom | src/fioMonitorFit.c:247-314 | the result is pass, receive error or receive timeout; the bytes only grow from those already received; pass iff all that were asked for arrived |
| FioMonitor.EagainTolerated | src/fioMonitorFit.c:264-276 | up to `RETRY_COUNT` EAGAIN failures in a row are waited out |
| FioMonitor.EagainExhausted | src/fioMonitorFit.c:264-280 | the EAGAIN failure after `RETRY_COUNT` of them ends the receive with an error |
| FioMonitor.ShortReadResetsRetries | src/fioMonitorFit.c:291-297 | a short read resets the EAGAIN count, so another `RETRY_COUNT` are waited out |
| FioMonitor.Filled | src/fioMonitorFit.c:241 | after the receive the buffer holds the bytes that arrived, then the zeros of the initial clear |
| FioMonitor.ModuleName | src/fioMonitorFit.c:402-426 | the module types recognised are 1 to 6 |
| FioMonitor.RawInputsCommand | src/fioMonitorFit.c:449-464 | module 1 gets the 15-byte command, modules 2 and 3 the 22-byte one, no other module any |
| FioMonitor.FioLink.RxFio | src/fioMonitorFit.c:227-315 | the result is the receive outcome; the first `sz` bytes are what arrived followed by zeros; the rest of the buffer is untouched |
| FioMonitor.FioLink.constructor | src/fioMonitorFit.c:61-64 | the response buffer starts all zero and the module id 0 |
| FioMonitor.FioLink.ClearPrefix | src/fioMonitorFit.c:241 | the first `sz` bytes are zero; the rest is untouched |
| FioMonitor.FioLink.StoreChunk | src/fioMonitorFit.c:264-297 | the bytes read are stored after those already received |
| FioMonitor.FioLink.RunFioCmd | src/fioMonitorFit.c:329-369 | a failed transmit fails with nothing received; otherwise the result and the buffer are those of the receive |
| FioMonitor.ModuleIdOutcome | src/fioMonitorFit.c:391-428 | a module ID is read iff the command was sent and its reply arrived, and is the reply's last byte; the result passes iff that ID names a module |
| FioMonitor.RawInputsResult | src/fioMonitorFit.c:442-485 | a module without a raw-input command passes; otherwise the result passes iff the whole command was written and its whole reply arrived |
| FioMonitor.FioLink.GetModuleId | src/fioMonitorFit.c:391-428 | on a reply, the module ID is its last byte, and an ID outside 1 to 6 turns the pass into an error; the result and stored ID are those of `ModuleIdOutcome` |
| FioMonitor.FioLink.GetRawInputs | src/fioMonitorFit.c:442-485 | the command follows the module type; the result is `RawInputsResult`; after a sent command the reply's bytes, then zeros, fill its length and the rest of the buffer is untouched; for modules 2 and 3 the monitor change is reported iff the read passed and the reply's 18th byte differs from 0x80; the report never changes the result |
| FioMonitor.FioLink.Run | src/fioMonitorFit.c:561-608 | the recorded result is `getModuleId`'s with the note "getModuleId failed" when that does not pass; otherwise it is `getRawInputs`' result for the module read, with the note "getRawInputs failed" when that does not pass; the test passes iff it completes without a note |
| FioMonitor.MonitorBeyondShortReply | src/fioMonitorFit.c:49 | the monitor byte lies beyond the 15-byte reply of a 2070-2 module and within the 22-byte one |
| MemoryFit.Memory.constructor | src/memoryFit.c:49 | a memory of `size` cells with the given stuck bits |
| MemoryFit.Memory.Stored | src/memoryFit.c:63 | a cell without stuck bits holds what was stored |
| MemoryFit.Memory.Store | src/memoryFit.c:63 | a store changes one cell, to what that cell can hold |
| MemoryFit.FirstFaultFrom | src/memoryFit.c:61-97 | the first failing walking bit lies within the access width |
| MemoryFit.Access | src/memoryFit.c:62-69 | one access reads back iff its pattern holds at that address; no other cell changes |
| MemoryFit.WalkingOnes | src/memoryFit.c:61-97 | the pass reports the first failing pattern; cells beyond the accesses are untouched |
| MemoryFit.FirstFillFault | src/memoryFit.c:114-123 | the first cell that does not end up 0xff, with every cell before it 0xff |
| MemoryFit.FillCheck | src/memoryFit.c:100-123 | the 0xaa fill, the `\|= 0x55` pass and the check find the first cell that is not 0xff; later cells are untouched |
| MemoryFit.Bit | src/memoryFit.c:67 | the returned walking pattern has exactly one bit set |
| MemoryFit.Dmtest | src/memoryFit.c:49-126 | the result is the one the passes give; only the first `sz` cells are touched; when every pass succeeds they are all 0xff |
| MemoryFit.HealthyNoFault | src/memoryFit.c:61-97 | healthy memory reads back every walking pattern |
| MemoryFit.HealthyPasses | src/memoryFit.c:49-126 | over healthy memory every pass succeeds and `dmtest` returns 0 |
| MemoryFit.FaultFound | src/memoryFit.c:61-97 | an access that does not read back its pattern is found by the walking pass |
| MemoryFit.StuckCellFails | src/memoryFit.c:87-97 | a cell with a stuck bit fails the byte access of that bit |
| MemoryFit.StuckBitDetected | src/memoryFit.c:49-126 | every stuck bit in the first `sz` cells makes some pass fail |
| MemoryFit.FailingBitFails | src/memoryFit.c:59-97 | a byte cell with any bit stuck at 0 or 1 does not read back some single-bit walking pattern |
| MemoryFit.HealthyFill | src/memoryFit.c:100-123 | a healthy cell filled with 0xaa and then OR-ed with 0x55 holds 0xff |
| MemoryFit.ZeroMeansPasses | src/memoryFit.c:120-125 | for a buffer that does not start at address 0 and does not wrap, `dmtest` returns 0 iff every pass succeeds |
| SerialDefs.MapBaudRate | src/serialFit.c:1668-1703 | each asynchronous speed code maps to its numeric rate; any other value passes through |
| SerialDefs.CodesAreNotRates | src/serialFit.c:1668-1703 | no speed code is itself a standard rate, so the two kinds of value never collide |
| SerialDefs.RateTable | src/serialFit.c:1202-1402 | each port's rate table by device name: the fast synchronous table for sp3s and sp5s, the synchronous one for sp1s, sp2s and sp8s; no zero rate |
| SerialDefs.PrintedRates | src/serialFit.c:1202-1402 | the rates printed are the standard numeric rates for async ports and the table itself for sync ports |
| SerialDefs.MapSdlcBaud | src/serialFit.c:1705-1724 | -1 iff the rate is not in `ATC_B`; otherwise its index there |
| SerialDefs.SyncRatesSupported | src/serialFit.h:86-98 | every synchronous table rate has a controller index |
| SerialDefs.Int32 | src/serialFit.c:1843 | storing into an `int32` wraps around in two's complement |
| SerialDefs.Quot | src/serialFit.c:1853 | C's `/` truncates toward zero |
| SerialDefs.Rem | src/serialFit.c:1854 | C's `%` gives the remainder the sign of the dividend |
| SerialDefs.TimeoutInt32 | src/serialFit.c:1835-1855 | the timeout as the program computes it stays within `int32` range |
| SerialDefs.CalculateTimeout | src/serialFit.c:1835-1855 | corrected: the frame time times the multiplier, split into whole seconds and the microseconds left over |
| SerialDefs.ProductFitsInt32 | src/serialFit.c:1843 | `numBytes * 10 * 1000000` fits an `int32` for frames of at most 214 bytes |
| SerialDefs.TimeoutExactUpTo214 | src/serialFit.c:1835-1855 | for frames of at most 214 bytes, rates of at least 1200 and multipliers up to 1000 the `int32` computation agrees with the exact one |
| SerialDefs.TimeoutNegativeAt215 | src/serialFit.c:1843-1855 | at 215 bytes and 1200 bit/s the program's timeout is negative where the exact one is 1791.67 seconds |
| SerialDefs.FramePattern | src/serialFit.c:2505-2513 | every payload byte is the frame size truncated to a byte, except that the ATC test string overlays the first `MIN(sz, 49)` bytes |
| SerialRx.Verdict | src/serialFit.c:2159-2168 | a reassembled frame passes iff it equals the frame sent; a stopped receive keeps its error |
| SerialRx.AssembleFrom | src/serialFit.c:2083-2203 | a completed frame is the bytes stored so far plus the rest; a stopped one holds a proper prefix |
| SerialRx.FragmentsReassemble | src/serialFit.c:2127-2159 | non-empty fragments that add up to the rest of the frame complete it, whatever the EAGAIN count |
| SerialRx.FragmentedFramePasses | src/serialFit.c:2083-2203 | a frame delivered intact, in any fragmentation, passes |
| SerialRx.EmptyReadFails | src/serialFit.c:2138-2149 | a read that returns nothing while bytes are expected fails the frame |
| SerialRx.EagainTolerated | src/serialFit.c:2110-2118 | up to `RETRY_CNT` EAGAIN failures in a row are waited out |
| SerialRx.EagainStep | src/serialFit.c:2110-2118 | an EAGAIN failure with retries left only moves on to the next round |
| SerialRx.EagainExhausted | src/serialFit.c:2110-2123 | the third EAGAIN failure in a row ends the receive with an error |
| SerialRx.ShortReadStep | src/serialFit.c:2138-2144 | a short non-empty read stores its bytes and restarts the EAGAIN count |
| SerialRx.ReadWholeFrom | src/serialFit.c:1864-1953 | type 0 passes only when one read returns the whole frame |
| SerialRx.SplitFrameFailsTypeZero | src/serialFit.c:1864-1953 | a frame in two pieces fails type 0, where type 2 reassembles it |
| SerialRx.CountRxOnce | src/serialFit.c:2107-2167 | each receive counts once, as good iff it passed, and the transmit counters are untouched |
| SerialRx.CountTxOnce | src/serialFit.c:2596-2622 | each transmit counts once, as good iff it passed, and the receive counters are untouched |
| SerialRx.ByteStep | src/serialFit.c:1978-2071 | one pass of `rxTypeOne`'s loop body: an EAGAIN retry stays on the byte, anything else ends it and counts a receive |
| SerialRx.ByteLoopRun | src/serialFit.c:1978-2071 | the loop ends with every byte done |
| SerialRx.RxOneCountsEveryByte | src/serialFit.c:1963-2074 | as written, `rxTypeOne` counts a receive for every byte of the frame, not one per frame |
| SerialRx.RxOneRejectsGoodFrame | src/serialFit.c:2014-2071 | as written, the frame [2, 2] arriving intact one byte per read fails with two bad receives, while byte-at-a-time reassembly passes it |
| SerialRx.ByteAtATime | src/serialFit.c:1978-2071 | reading one byte per call sees at most the first ready byte of each read |
| SerialRx.BytewiseFramePasses | src/serialFit.c:1963-2074 | corrected: byte-at-a-time reception passes a frame that arrives intact one byte per read |
| SerialLoop.TxOutcome | src/serialFit.c:2596-2622 | a write passes exactly when it sent the whole frame, or sent anything without error to the reassembling receiver 2; otherwise an error return is `ftTxError` and a short write `ftTxFail` |
| SerialLoop.SweepFrom | src/serialFit.c:2492-2576 | corrected (receive type 1): the sweep from size `sz` yields at most one outcome per remaining frame size |
| SerialLoop.SweepStep | src/serialFit.c:2501-2565 | a sweep is the current frame's outcome followed, unless the sweep stops there, by the sweep from the next size |
| SerialLoop.FullSweep | src/serialFit.c:2501-2565 | without quick-fail and with a transmitter that is always ready, every size from `sz` to the maximum is run and none times out |
| SerialLoop.ZeroMinOverrunsTiming | src/serialFit.c:2698 | as written, a sweep from frame size 0 writes one timing record more than the `maxFrameSize` records allocated |
| SerialLoop.SweepFitsTiming | src/serialFit.c:2501-2564 | corrected: a sweep writes at most one record per frame size of its range, and a full sweep fills the range |
| SerialLoop.Overwritten | src/serialFit.c:2103-2144 | a buffer written over its start holds the new bytes there and its old contents after them, at its old length |
| SerialLoop.SerialTest.constructor | src/serialFit.h:117-131 | a table entry starts with its own fields, nothing opened, both sides unscheduled and all rate counters zero |
| SerialLoop.SerialTest.Store | src/serialFit.c:2127-2144 | a read at offset `pos` puts its bytes there and changes no other byte of the receive buffer |
| SerialLoop.SerialTest.RxTypeTwo | src/serialFit.c:2083-2203 | the verdict is that of the reassembled frame against the transmit buffer, the receive buffer holds what was stored, and the counters at the current rate record exactly one receive |
| SerialLoop.SerialTest.Round | src/serialFit.c:2096-2159 | one pass of the read loop keeps the cursor consistent with the bytes stored so far, or settles the frame |
| SerialLoop.SerialTest.Reassemble | src/serialFit.c:2096-2159 | the read loop ends with the verdict of the reassembled frame and the stored bytes over the buffer's old contents |
| SerialLoop.SerialTest.RxTypeZero | src/serialFit.c:1864-1953 | a single read must return the whole frame; the verdict compares it with the transmit buffer and one receive is counted |
| SerialLoop.SerialTest.ReadWhole | src/serialFit.c:1878-1940 | the read loop of the single-read receiver ends with the verdict of `ReadWholeFrom` and the stored bytes |
| SerialLoop.SerialTest.RxTypeOne | src/serialFit.c:1963-2074 | corrected: the frame is received one byte per read and judged once, as one receive |
| SerialLoop.SerialTest.Transmit | src/serialFit.c:2589-2625 | the transmitter ends `transmitComplete` with the outcome of `TxOutcome`, counting one good or one bad transmit at the current rate |
| SerialLoop.SerialTest.FillFrame | src/serialFit.c:2504-2513 | the first `sz` receive bytes are zero and the first `sz` transmit bytes hold the frame pattern; the rest of both buffers is unchanged |
| SerialLoop.SerialTest.TransmitOnly | src/serialFit.c:2547-2553 | the transmit-only design makes the frame `maxFrameSize` bytes of 0x55 |
| SerialLoop.SerialTest.Receive | src/serialFit.c:2537-2557 | corrected (receive type 1): the verdict is that of the receiver design's assembly of the frame, and one receive is counted; type 1 uses the corrected byte-at-a-time receiver |
| SerialLoop.SerialTest.RunFrame | src/serialFit.c:2504-2557 | corrected (receive type 1): one frame: buffers filled, a transmitter that never gets ready gives `ftTxTimeout`, otherwise the receiver design's verdict |
| SerialLoop.SerialTest.SweepFrames | src/serialFit.c:2501-2565 | corrected (receive type 1): the frames of the sweep produce exactly the outcomes of `SweepFrom`, with the counters and the last frame size it implies |
| SerialFit.ClampFrame | src/serialFit.c:2862-2876 | a requested frame size is at most `MAX_TRANSFER`; a size within range is kept and a larger one becomes `MAX_TRANSFER` |
| SerialFit.LastMatch | src/serialFit.c:2844-2880 | the last record naming exactly an entry's two ports, or none when no record names them |
| SerialFit.LastRecordWins | src/serialFit.c:2844-2880 | only records naming both of an entry's ports touch it; the last one schedules both sides and sets the clamped frame sizes and the iteration count; an entry no record names keeps its setup |
| SerialFit.ScheduleEntry | src/serialFit.c:2852-2879 | one record applied to one entry changes its setup as the record says and nothing else of it |
| SerialFit.ApplyRecord | src/serialFit.c:2844-2880 | one non-comment record applied to every entry of the table, each entry keeping everything but its setup |
| SerialFit.ConfigureTable | src/serialFit.c:2827-2885 | a file that cannot be opened gives -1 and changes nothing; otherwise every record is applied in file order, comments skipped, and the result is 0 |
| SerialFit.FirstFrom | src/serialFit.c:2215-2235 | the first entry from `i` on that the scan accepts, and no accepted entry before it |
| SerialFit.Scan | src/serialFit.c:2215-2235 | a table scan returns the first accepted entry in table order |
| SerialFit.GetConcurrentTest | src/serialFit.c:2211-2236 | the first scheduled entry other than the caller that receives on its transmit port and transmits on its receive port; none exactly when no entry does |
| SerialFit.PeersFindEachOther | src/serialFit.c:2211-2236 | two scheduled tests on the same cable in opposite directions find each other |
| SerialFit.Adopted | src/serialFit.c:2287-2305 | a descriptor adopted from another entry is a positive one |
| SerialFit.OpenPorts | src/serialFit.c:2267-2365 | opening fails only with an rx error, `ftFail` (no receive port opened or adopted) or a tx error; a linked test has two valid descriptors, and a self-loop shares one descriptor |
| SerialFit.TxScanAdoptsUnscheduled | src/serialFit.c:2336-2354 | as written, the transmit-side scan tests the caller's states, not the scanned entry's, so it would adopt the receive descriptor of an unscheduled entry that the receive-side scan skips; latent, see `SerialFit.TxScanLatent` |
| SerialFit.TxScanLatent | src/serialFit.c:2336-2354 | for an active test, as long as no entry that is not active holds a receive descriptor (every entry starts with descriptor -1 and unscheduled, src/serialFit.c:1418-1522, and states are only ever set to scheduled, src/serialFit.c:2859-2860), opening the ports ends the same with the scan as written and the intended scan |
| SerialFit.TxScansAgreeOnActive | src/serialFit.c:2336-2354 | for a scheduled caller the scan as written and the intended scan agree on every active entry, and the intended scan accepts only what the written one accepts |
| SerialFit.OpenLink | src/serialFit.c:2267-2365 | corrected: the receiver is linked exactly when `OpenPorts` with the intended transmit-side scan links it, with those descriptors; otherwise it stops with that outcome |
| SerialFit.AttemptedRates | src/serialFit.c:2379-2429 | a rate is run exactly when it is in the test's table and passes the override and the sync cross-connect filter, in table order |
| SerialFit.UnrestrictedRunsAll | src/serialFit.c:2379-2429 | a self-loop, or a test without an override that is not a restricted cross-connect, runs at every rate of its table |
| SerialFit.CrossConnectSharedRate | src/serialFit.c:2395-2421 | sp1s cross-connected to sp3s runs only at 153600 baud |
| SerialFit.FastPairRunsBothRates | src/serialFit.c:2409-2412 | the sp3s/sp5s pair is exempt from the shared-rate restriction |
| SerialFit.InitDecision | src/serialFit.c:2437-2485 | a shared descriptor initialises one port; a test whose peer is waiting initialises both ports and wakes it; one whose peer runs otherwise waits; one with no peer initialises both itself |
| SerialFit.CoordinateInit | src/serialFit.c:2437-2485 | the plan is `InitDecision`'s; a waiting test shows `waitingForConcurrent` while it waits and has its reader state back afterwards |
| SerialFit.Handshake | src/serialFit.c:2450-2472 | of two tests on one cable, the first waits, the second sees it waiting and initialises and wakes; the cable's ports are initialised once between them |
| SerialFit.IterationsFrom | src/serialFit.c:2492-2571 | a finished run of iterations never ends in a transmitter timeout it did not start with |
| SerialFit.RatesFrom | src/serialFit.c:2379-2577 | a finished run of rates never ends in a transmitter timeout it did not start with |
| SerialFit.RunIterations | src/serialFit.c:2492-2571 | the iterations at the current rate give exactly the outcome of `IterationsFrom` |
| SerialFit.RunRate | src/serialFit.c:2379-2577 | one pass of the rate loop either ends the run with the outcome of `RatesFrom` or lets it go on from the next rate with the same overall outcome |
| SerialFit.RunReceiver | src/serialFit.c:2379-2587 | the receiver's outcome is `RatesFrom` from the first rate with initial outcome `ftFail`; a transmitter timeout returns at once, otherwise the reader ends `receiveComplete` |
| SerialFit.RatePieces | src/serialFit.c:3251-3265 | an entry has no failure pieces exactly when none of its rates failed |
| SerialFit.RatesSummary | src/serialFit.c:3251-3265 | the summary only grows and stays below the buffer size |
| SerialFit.Summary | src/serialFit.c:3212-3266 | the summary over all entries only grows and stays below the buffer size |
| SerialFit.RatesSummaryComplete | src/serialFit.c:3251-3265 | when all of an entry's pieces fit, the summary lists every one of them |
| SerialFit.SummaryComplete | src/serialFit.c:3212-3266 | when every piece fits, the summary is exactly the pieces of all failing rates of all tests that ran, in table order |
| SerialFit.NoPiecesWithoutFailure | src/serialFit.c:3252 | with no failure in any test that ran there are no pieces |
| SerialFit.NothingFailedEmptySummary | src/serialFit.c:3249-3271 | a run in which nothing failed reports an empty summary |
| SerialFit.FailureSummary | src/serialFit.c:3212-3271 | the closing report is the `Summary` of the statistics of the whole table |
| SerialSingle.ClampSize | src/serialPortFit.c:269-272 | a configured frame size is at most `MAX_COMM_SZ`; a size within range is kept and a larger one becomes `MAX_COMM_SZ` |
| SerialSingle.OpenPorts | src/serialPortFit.c:294-330 | equal names share one read-write descriptor; otherwise the transmitter is opened first and then the receiver; opening fails exactly when an `open` the test makes returns -1 |
| SerialSingle.WriteFailure | src/serialPortFit.c:341-355 | a write ends the test exactly when it did not send the whole frame, with `ftTxError` for an error and `ftTxFail` for a short write |
| SerialSingle.ReceiveFrom | src/serialPortFit.c:120-203 | the bytes stored only grow and never exceed the frame; an assembled frame has exactly the frame's length |
| SerialSingle.RxTypeTwo | src/serialPortFit.c:102-204 | the receive buffer ends holding what `Receive` stored over its old contents, and the verdict compares the assembled frame with the transmitted bytes |
| SerialSingle.ZeroReadIsError | src/serialPortFit.c:168-203 | a zero-byte read while bytes are still expected is a receive error here, where the threaded receiver calls it a failed frame |
| SerialSingle.ReadEagainStep | src/serialPortFit.c:143-155 | an EAGAIN read failure with retries left only moves on to the next round |
| SerialSingle.EagainWaitedOut | src/serialPortFit.c:143-155 | up to `RETRY_COUNT` EAGAIN read failures in a row are waited out |
| SerialSingle.EagainExhausted | src/serialPortFit.c:145-159 | the eleventh EAGAIN read failure in a row is a receive error |
| SerialSingle.SelectErrorNotRetried | src/serialPortFit.c:126-132 | a failing select is a receive error at once, where the threaded receiver retries it |
| SerialSingle.SingleFragmentsReassemble | src/serialPortFit.c:160-175 | however a frame is split into non-empty reads, it is reassembled in full |
| SerialSingle.UnwatchedTimesOut | src/serialEchoFit.c:87-109 | a port the select does not watch times out whatever arrives on it |
| SerialEcho.MapBaudTermios | src/serialEchoFit.c:178-215 | each of the eight standard asynchronous rates maps to its termios speed code; any other number passes through unchanged |
| SerialEcho.TermiosRoundTrip | src/serialEchoFit.c:178-215 | `mapBaudTermios` and `mapBaudRate` are inverse on the standard rates and their codes; a number that is neither passes through both |
| SerialEcho.ParseEchoOptions | src/serialEchoFit.c:281-369 | the option loop yields the settings of `EchoParse`: defaults, then each option in order; help, an unknown option or a non-option argument exits with the usage text, an unopenable configuration file ends the test |
| SerialEcho.EchoSizeBounded | src/serialEchoFit.c:339-342 | whatever the options, the frame size stays within `MAX_COMM_SZ` |
| SerialEcho.ConfigDefaultRate | src/serialEchoFit.c:314-331 | a configuration file sets its protocol's default rate, 153600 for a four-character receive port and 115200 otherwise, unless `-b` set a rate before it |
| SerialEcho.BaudOptionOrderMatters | src/serialEchoFit.c:352-357 | `-b 9600` after an asynchronous configuration becomes the code B9600, before it the number 9600 is kept |
| SerialEcho.RoundOutcomes | src/serialEchoFit.c:417-489 | an iteration reports one or two outcomes; a second one, the return leg's, comes only after a passing forward frame |
| SerialEcho.ReturnOnlyAfterPass | src/serialEchoFit.c:447-450 | a forward frame that does not pass is never sent back, so the return leg does not matter |
| SerialEcho.WriteFailureStops | src/serialEchoFit.c:423-440 | a failed or short write is the last outcome of the loop |
| SerialEcho.ReturnLegWatchedWhenOpenedInOrder | src/serialEchoFit.c:391-401 | when the transmit port is opened before the receive port and so gets the lower descriptor, the select as written watches the return leg and every iteration reports what it would with the select naming the port it reads |
| SerialEcho.ReturnLegBlindAsWritten | src/serialEchoFit.c:87-95 | as written, the select watches the global receive descriptor instead of the port it reads, so an intact echo on a higher descriptor would time out; latent, see `SerialEcho.ReturnLegWatchedWhenOpenedInOrder` |
| SerialEcho.CleanRoundPasses | src/serialEchoFit.c:415-490 | corrected: with the select watching the port it reads, a clean iteration passes both ways |
| SerialEcho.EchoLoop | src/serialEchoFit.c:415-490 | the iterations report exactly `EchoOutcomes` with the corrected select |
| SerialEcho.EchoIteration | src/serialEchoFit.c:417-489 | with the corrected select: one iteration reports `RoundOutcomes` and keeps the buffers' lengths (the select as written agrees when the transmit port is opened first, `SerialEcho.ReturnLegWatchedWhenOpenedInOrder`) |
| SerialEcho.SerialEchoFit | src/serialEchoFit.c:260-496 | with the corrected select: the whole test reports `EchoReport`: the option outcome, the open failures with their error, the iterations and the completion |
| SerialEcho.CompletesOnce | src/serialEchoFit.c:308-495 | unless the test exits with its usage text, its last report is the completion, which appears nowhere else |
| SerialEcho.NoCompletionInLoop | src/serialEchoFit.c:415-490 | the iterations report attempts only, never the completion |
| SerialPort.ParsePortOptions | src/serialPortFit.c:226-286 | the option loop yields the settings of `PortFrom`; non-option arguments are only reported |
| SerialPort.PortSizeBounded | src/serialPortFit.c:269-272 | whatever the options, the frame size stays within `MAX_COMM_SZ` |
| SerialPort.ConfigSetsRateAndCount | src/serialPortFit.c:251-262 | a configuration file always sets its protocol's rate and the iteration count; an `-i` after it overrides the count |
| SerialPort.EchoOptionsRejected | src/serialPortFit.c:227-241 | `-f` and `-b` are not options of this test and end it with the usage text |
| SerialPort.PortOutcome | src/serialPortFit.c:341-362 | an iteration ends the loop exactly when its write fails or is short, reporting `ftTxError` or `ftTxFail` |
| SerialPort.ReceiveFailuresDoNotStop | src/serialPortFit.c:332-364 | while every write is whole, each iteration reports exactly one receive outcome |
| SerialPort.WriteFailureEndsLoop | src/serialPortFit.c:341-355 | a failed or short write is the last outcome of the loop |
| SerialPort.PortIteration | src/serialPortFit.c:334-362 | the receive buffer is filled with 0xff and the transmit buffer with the frame size's low byte, and the iteration reports `PortOutcome` |
| SerialPort.PortLoop | src/serialPortFit.c:332-364 | the iterations report exactly `PortOutcomes` |
| SerialPort.SerialPortFit | src/serialPortFit.c:206-370 | the whole test reports `PortReport`: the option outcome, the open failures with their error, the iterations and the completion |
| SerialPort.LoopbackSharesDescriptor | src/serialPortFit.c:294-307 | with one name for both directions a single descriptor is opened and shared, and its failure is an error rather than a transmit or receive error |

## Left out

- Threads, semaphores and the monitor: the `serialPort_r`/`serialPort_w` thread bodies, `initSpDat`, `cancelSpDat` and the monitor's scheduling and wait policies (src/serialFit.c:2639-2776, 2942-3206) exist for concurrency; the model keeps the sequential receiver and transmitter steps and the re-initialisation decision, and does not model interleavings.
- The writer-ready wait of the receiver (`usleep` polling up to `MAX_WAIT_FOR_TX`, src/serialFit.c:2515-2526) is timing-based: each frame's script says whether the transmitter got ready.
- Frame timing: `clock_gettime` values and the timing printout are not modelled; only the number of timing records a sweep writes is.
- The frame-size loop of the receiver, a `for` loop in the source, is modelled by a method that recurses on the frame size (`SerialLoop.SerialTest.SweepFrames`); the iteration and rate loops stay loops.
- Device and operating-system calls (`open`, `read`, `write`, `select`, `fcntl`, `close`) are parameters: the descriptor `open` returns, a script of read events per frame, the byte count a write returns.
- Terminal setup (`initSerialPort`, `set_spx_bit_rate`) is not modelled; the re-initialisation decision says which ports would be initialised.
- `fscanf` of a configuration record is modelled by its parsed fields; a record with fewer fields, and the 20-character limit of the `strncmp` name comparison, are not modelled.
- `strtoul` of `-i` and `-b` arguments is modelled by the parsed number.
- The usage text and its `exit` are modelled by the `Exited` parse result; the report after it is not modelled.
- The option parsing of `serialFit` itself (receive type, quick-fail, rate override, timeout multiplier, test string) is not modelled: these settings are parameters of the receiver.
- The static buffers of the single-process tests are modelled as sequence values passed in and out, not as arrays updated in place.
- `spRouteFit` and the `#if 0` blocks of `serialPortFit.c` and `serialFit.c` are inactive or outside the modelled tests.
- SerialFit.RunReceiver: states the outcome and the reader's final state, not the counters and buffers left behind after all rates; those are stated per frame by `SerialLoop.SerialTest.SweepFrames`.
- SerialFit.Adopted: states only that an adopted descriptor is positive; which entry is adopted is stated by `SerialFit.FirstFrom`.
- SerialFit.IterationsFrom: states only that a finished run never ends in a new transmitter timeout; the per-frame outcomes are those of `SerialLoop.SweepFrom`.
- SerialFit.RatesFrom: states only that a finished run never ends in a new transmitter timeout; which rates are run is stated by `SerialFit.AttemptedRates`.
- EepromHeader.ErasedImage: the erased image is proved to be 256 bytes of 0xff, but that `eeVerifyHdr` rejects it is not proved, since that needs the CRC of that image computed.
- Interactive prompting (`get_line` and the menus of the EEPROM editor) is not modelled: each setter takes the number already parsed.
- The `PRINT` operation of `eeHdrOps` only displays the header and is modelled as leaving the image unchanged.
- `getSpi4use` in `src/eepromFit.c` switches on the `spi3use` field; it only prints and is not part of this model.
- `getSpi3use` and `getSpi4use` only print a name for the stored code and return the field; the model reads the field directly.
- `setSpi3use` and `setSpi4use` read the code with `strtoul`; the model takes the parsed value, so text that is not a number is not modelled.
- EepromHeader.Header.SetPortmap: the port map bit positions (sp1 = bit 0 up to sp8s = bit 10) assume the MSB-first bit-field allocation of the big-endian target for `portbits` (`src/eepromFit.h:103-117`, spare bits declared first); a compiler that allocates bit-fields LSB-first would place them differently.
- MemoryFit: address aliasing (two addresses reaching the same cell, which the loops of `src/memoryFit.c:98` are also meant to expose) is not modelled; the memory model has only per-cell stuck-at bits, so `MemoryFit.StuckBitDetected` covers stuck bits only.

- Floating point (latitude and longitude, the elapsed time in seconds, transaction times) is not modelled.
- `fioMonitorFit.c`'s module 1 request has a 15-byte reply, but `getRawInputs` still reports `rxBuf[17]`, a byte that call does not write. The model keeps this: `FioMonitor.FioLink.GetRawInputs` reports whatever that byte held before the call, and the result is unaffected, as in the source. This is noted rather than listed as a finding because only a report line depends on it.
- EepromHeader.Header.SetModule: uses the corrected year, month and day conversions (`EepromFit.To4DigitBcd`, a single BCD conversion of month and day). As written, src/eepromFit.c:834 stores `to4digitBCD` of the typed year, for example 2017 as 0x37, and month and day are converted twice. See the Findings rows and `EepromFit.To4DigitBcdAsWrittenLosesDigits` and `EepromFit.SetDateAsWrittenCounterexample`.
- EepromFit.SetYear: uses the corrected `EepromFit.To4DigitBcd`. As written, a typed year goes through `to4digitBCD` (src/eepromFit.c:834), which stores 2017 as 0x37; see `EepromFit.To4DigitBcdAsWrittenLosesDigits`. Menu choices 1 to 5 store their constants as written (src/eepromFit.c:818-831).
- EepromFit.SetYearMenuAgrees: is stated of the corrected `EepromFit.SetYear`. As written, choosing 1 stores 0x2017 but typing 2017 stores 0x37, so the menu and the typed year disagree.
- EepromFit.EditModule: uses the corrected year, month and day conversions, as `EepromHeader.Header.SetModule` does. The as-written conversions are `EepromFit.To4DigitBcdAsWritten`, `EepromFit.SetMonthAsWritten` and `EepromFit.SetDayAsWritten`.
- DisplayFit.PrintFullCharSetAsWritten: keeps the `keepGoing` guards as written but draws its lines from the corrected character string. The as-written string, with the apostrophe at index 64, is `DisplayFit.ASCII_AS_WRITTEN`; see `DisplayFit.AsciiAsWrittenMissesBacktick`.
- SerialLoop.SweepFrom: receive type 1 is judged by the corrected byte-at-a-time receiver (`SerialLoop.SerialTest.RxTypeOne`), not by `rxTypeOne` as written (src/serialFit.c:1963-2074, called at src/serialFit.c:2541-2543). As written, the whole frame is compared after every byte, and a receive is counted per byte. So the frame [2, 2], arriving intact one byte per read, fails with two bad receives in the source but passes with one good receive here. The as-written receiver is `SerialRx.RxTypeOneAsWritten`; `SerialRx.RxOneRejectsGoodFrame` and `SerialRx.RxOneCountsEveryByte` state what it does. Types 0 and 2 are as written.
- SerialLoop.SerialTest.Receive: for type 1 it calls the corrected receiver and counts one receive, where the source counts one per byte; see `SerialLoop.SweepFrom`.
- SerialLoop.SerialTest.RunFrame: the verdict of a type-1 frame is the corrected receiver's; see `SerialLoop.SweepFrom`.
- SerialLoop.SerialTest.SweepFrames: the outcomes and receive counters of a type-1 sweep are those of the corrected receiver; see `SerialLoop.SweepFrom`. `SerialFit.IterationsFrom`, `SerialFit.RatesFrom`, `SerialFit.RunIterations`, `SerialFit.RunRate` and `SerialFit.RunReceiver` are built on this sweep and inherit the same difference.
- SerialRx.ByteStep: after a mismatch the source leaves the write pointer at `buf_r + comSz + 1` (src/serialFit.c:2038-2070), and the next read (src/serialFit.c:1994) stores there. For frames of 1023 or 1024 bytes that is past the 1024-byte receive buffer (src/serialFit.c:1218-1408). The model drops such stores (`SerialRx.Put`) instead of modelling memory beyond the buffer.
- SerialRx.Put: a store at or past the end of the buffer leaves the buffer unchanged; the out-of-bounds write it stands for is described under `SerialRx.ByteStep`.
- `keepGoing`, the flag the signal handler clears, is a parameter that stays constant during a call.
- `fitPrint` log routing and the text of log messages are not modelled, except where a string is the result of an operation.

## Findings

| source | as written | input that shows it | evidently intended | confidence | as-written member | corrected member |
|---|---|---|---|---|---|---|
| src/serialFit.c:1963-2074 | `rxTypeOne` compares the whole frame and counts a receive after every byte | the frame [2, 2] arriving intact one byte per read into a zeroed buffer fails, with `rxNG` counted twice | the frame is judged once, after its last byte, and counted once | not executed | SerialRx.RxOneRejectsGoodFrame | SerialLoop.SerialTest.RxTypeOne |
| src/serialFit.c:2336-2354 | the transmit-side adoption scan tests the caller's schedule states instead of the scanned entry's | an unscheduled entry receiving on the caller's transmit port with a descriptor left open would be adopted; latent, since no unscheduled entry ever opens a descriptor (`SerialFit.TxScanLatent`) | skip unscheduled entries, as the receive-side scan at src/serialFit.c:2287-2305 does | not executed | SerialFit.TxScanAdoptsUnscheduled | SerialFit.OpenLink |
| src/serialFit.c:2501-2564 | one timing record per frame size from `minFrameSize` to `maxFrameSize`, into `maxFrameSize` records allocated at src/serialFit.c:2698 | the sp2s/sp3s entries of the default table (frame sizes 0 to 32) write 33 records into 32 | a timing allocation that covers every frame size of the sweep | not executed | SerialLoop.ZeroMinOverrunsTiming | SerialLoop.SweepFitsTiming |
| src/serialFit.c:1843-1854 | `calculateTimeout` multiplies the frame size by 10 and by 1000000 in `int32` | a 215-byte frame at 1200 bit/s with the default multiplier gives a negative timeout | the frame time times the multiplier, computed without overflow | not executed | SerialDefs.TimeoutNegativeAt215 | SerialDefs.CalculateTimeout |
| src/serialEchoFit.c:95 | the receiver's `select` is bounded by the global `fd_r` instead of the descriptor it reads | with the transmit port as descriptor 4 and the receive port as descriptor 3, an intact echo on the return leg would time out; latent, since the transmit port is opened first and gets the lower descriptor (`SerialEcho.ReturnLegWatchedWhenOpenedInOrder`) | `select` bounded by the descriptor being read | not executed | SerialEcho.ReturnLegBlindAsWritten | SerialEcho.CleanRoundPasses |
| src/eepromFit.c:376-387 | `to4digitBCD` shifts the thousands, hundreds and tens digits by four bits each and adds them | the year 2017 becomes 0x37, which reads back as 37 | packed BCD, 2017 becoming 0x2017 | not executed | EepromFit.To4DigitBcdAsWrittenLosesDigits | EepromFit.To4DigitBcd |
| src/eepromFit.c:846-864 | the month menu code is converted to BCD a second time | typing 16 for October stores 0x16, which `getModule` shows as an invalid month | October stored as the BCD month 0x10 | not executed | EepromFit.SetDateAsWrittenCounterexample | EepromFit.SetMonth |
| src/eepromFit.c:874-908 | the day typed is converted to BCD a second time | typing 49 for the 31st of January stores 0x49, an invalid day | the day stored as its BCD value, and only days the month allows | not executed | EepromFit.SetDateAsWrittenCounterexample | EepromFit.SetDayAgreesWithCheck |
| src/eepromFit.c:1160-1169 | `setEthdev` checks the old device type, not the value typed | a router (type 5) can be edited into type 9, and a stored type 9 can never be repaired | store the typed type only when it is at most 5 | not executed | EepromFit.EditEthdevAsWrittenCounterexample | EepromFit.EditEthdev |
| src/eepromFit.c:1474-1479 | `setPorts` stores 2 as the port-description count | after `setPorts` the default header's count no longer matches its 11 port descriptions | the count 11 | not executed | EepromHeader.SetPortsAsWrittenCounterexample | EepromHeader.SetPorts |
| src/eepromFit.c:1829-1843 | `getCom_drop` and `setCom_drop` read and write `contr_id` | setting the communication drop to 7 overwrites the controller id and leaves `com_drop` as it was | read and write the `com_drop` field | not executed | EepromHeader.ComDropAsWrittenCounterexample | EepromHeader.SetComDrop |
| src/displayFit.c:627 | the third block of `asciiString` starts with an apostrophe | character 64 of the string is an apostrophe, so the grave accent is never shown and the apostrophe twice | the 96 printable characters in code order, with the grave accent at index 64 | not executed | DisplayFit.AsciiAsWrittenMissesBacktick | DisplayFit.AsciiString |
| src/displayFit.c:667-686 | the special-character sweep and the closing line feeds run only while `keepGoing` is false | an uninterrupted run shows only the scroll; the special characters never move up the screen | run them while the test goes on, like the scroll before them | not executed | DisplayFit.FullCharSetAsWrittenSkipsSweep | DisplayFit.PrintFullCharSet |

Two of these defects are latent. The transmit-side scan differs from the intended one only on entries that are not active, and no such entry ever holds a receive descriptor. The echo `select` watches every descriptor below the receive one, and `open` gives the transmit port, opened first, the lower descriptor. Both would surface only if the program changed, such as resetting states to unscheduled or opening the ports in the other order.
