# Pico Ducky storage firmware, modelled in Dafny

The firmware turns a Raspberry Pi Pico into two USB devices at once:

- a keyboard that types a "ducky script";
- a mass-storage drive backed by an SD card on SPI.

This project models the logic of that firmware and proves what it does:

- **SD-card driver** (`src/sd_card.c`), modules `SpiBus`, `SdProtocol` and `SdCard`.
  - The card is seen only through one SPI byte exchange and a chip-select line.
  - The card is represented by the stream of bytes it clocks back. What the host clocks out is a log on the bus, next to a record of the chip-select level during each exchange.
  - `SdProtocol` states the SPI-mode protocol the driver speaks as pure functions of that stream:
    - command framing;
    - response polling;
    - the CMD0 / CMD8 / CMD55+ACMD41 / CMD16 start-up;
    - single-block reads and writes with their token and busy waits.
  - The `SdCard.Card` class is the driver itself, with the statics `sd_sectors` and `sd_initialized` as fields. Each method is proved to put exactly those bytes on the bus, each with chip select at the level the code sets, and to compute exactly those results.
- **FatFs disk layer** (`src/diskio.c`), module `DiskIo`.
  - Drive 0 is the card; every other drive is refused.
  - Driver results become FatFs status and result codes.
  - `disk_ioctl` handles four control codes.
  - `get_fattime` packs a fixed date into the FAT time-stamp layout, with unpacking as its inverse.
- **Keymap** (`char_to_keycode` in `src/main.c`), module `Keymap`. The keymap is checked against an independent reference: the legends of a US keyboard on page 0x07 of the USB HID Usage Tables.
- **Ducky-script interpreter** (`process_ducky_script` and `parse_ducky_command` in `src/main.c`), module `Ducky`.
  - Lines are cut out of the script, at most 255 characters each.
  - DELAY, STRING, ENTER, SPACE, GUI, TAB and ESCAPE become keyboard reports or a new delay.
  - The `Interpreter` class is proved against the pure step function `Tick`.
- **USB string descriptors** (`tud_descriptor_string_cb`), module `UsbStrings`. The static 32-word buffer is filled in place, and a host-side decoder (section 9.6.7 of the USB 2.0 specification) is proved to read each descriptor back.
- **Mass-storage callbacks** (`tud_msc_*` in `src/main.c`), module `Msc`: unit ready, capacity, READ(10) and WRITE(10), on top of the driver.
- `CTypes` holds the C integer types with their wrap-around, and `strlen`.

In five places the model follows what the code does rather than what a reader might expect:

- Response polling stops on any byte other than 0xFF (`SdProtocol.CommandResponse`), not only on one with its top bit clear.
- `disk_status(0)` is 0 whether or not the card was initialized (`DiskIo.DiskStatus`).
- GET_SECTOR_COUNT before initialization stores 0 and still reports RES_OK (`DiskIo.Geometry`).
- The write busy wait counts a card that releases on its 1000th poll as a timeout (`SdProtocol.LateReleaseFails`).
- STRING holds shift only for upper-case letters and the twenty symbols the code lists. `~` is not among them, so `STRING ~` types a backquote (`Ducky.StringTilde`). The intended behaviour is stated separately under "## Findings".

## Model

| member | source | states |
|---|---|---|
| CTypes.Sub32Inverse | src/main.c:223 | `uint32_t` subtraction and addition undo each other whatever wraps, so the elapsed-time test is exact across a clock wrap |
| CTypes.ToInt32 | src/main.c:433 | a `uint32_t` returned as `int32_t` is in the `int32_t` range and equal to it modulo 2^32 |
| CTypes.FromInt32 | src/main.c:263 | an `int` stored in `uint32_t` equals it modulo 2^32, and is unchanged when non-negative |
| CTypes.Int32RoundTrip | src/main.c:263 | the two conversions between `int32_t` and `uint32_t` are mutually inverse |
| CTypes.StrLen | src/main.c:230 | `strlen` counts the characters before the first NUL: none of them is NUL, and the next one is |
| CTypes.TerminatedLength | src/main.c:249-251 | a buffer with its first NUL at `n` has length `n` |
| SpiBus.Bus.Exchange | src/sd_card.c:20-24 | one exchange appends the byte sent to the log and the current chip-select level to the level record, and returns the card's reply for that exchange; chip select unchanged |
| SpiBus.Bus.Select | src/sd_card.c:12-14 | chip select asserted, nothing sent and no level recorded |
| SpiBus.Bus.Deselect | src/sd_card.c:16-18 | chip select released, nothing sent and no level recorded |
| SpiBus.RepliesAt | src/sd_card.c:75-77 | reply `j` of a run of replies is the card's reply on exchange `k + j` |
| SdProtocol.FrameLayout | src/sd_card.c:26-39 | a command frame is six bytes: `0x40` or the index, the argument most significant byte first, then CRC 0x95 for CMD0, 0x87 for CMD8 and 0 otherwise |
| SdProtocol.ArgRoundTrip | src/sd_card.c:35-38 | the four argument bytes read back big-endian give the argument |
| SdProtocol.FirstEndSkips | src/sd_card.c:42-46 | every reply a poll loop skips is one it does not wait for |
| SdProtocol.Polls | src/sd_card.c:42-46 | a poll loop polls between once and its bound, and stops early only on an awaited reply |
| SdProtocol.PollsSkip | src/sd_card.c:42-46 | every reply a poll loop reads before its last one is one it does not wait for |
| SdProtocol.PollsFindFirst | src/sd_card.c:42-48 | a poll loop ends on an awaited reply exactly when one arrives within its bound |
| SdProtocol.PollsUnique | src/sd_card.c:42-48 | the poll count is determined by the replies: any count that skips only unawaited replies and stops early only on an awaited one is the count Polls gives |
| SdProtocol.CommandReply | src/sd_card.c:41-48 | a command polls one to ten times, and its response is the last reply it read |
| SdProtocol.CommandResponse | src/sd_card.c:42-48 | the response is the first reply after the frame that is not 0xFF; it is 0xFF exactly when all ten polled replies were, and then all ten polls were made |
| SdProtocol.CommandTx | src/sd_card.c:33-46 | a command clocks out its frame and one 0xFF per poll |
| SdProtocol.ResetTx | src/sd_card.c:52-62 | ten wake-up bytes, then CMD0 |
| SdProtocol.IfCondTx | src/sd_card.c:69-80 | CMD8, plus four more exchanges exactly when it answered the idle flag |
| SdProtocol.AppOpTx | src/sd_card.c:85-88 | one ACMD41 pass clocks out CMD55, then CMD41 |
| SdProtocol.AppOpLoop | src/sd_card.c:83-94 | the ACMD41 loop sends between 1 and 1000 pairs, and gives up (last answer not 0) only after all 1000 |
| SdProtocol.AppOpLoopBytes | src/sd_card.c:83-94 | each pair of the loop takes between 14 and 32 exchanges, so the loop is bounded |
| SdProtocol.AppOpNext | src/sd_card.c:84-94 | the loop ends on a pair exactly when its ACMD41 answers 0 or it was the last try |
| SdProtocol.InitBy | src/sd_card.c:51-117 | initialization succeeds only when CMD0 answered the idle flag 0x01 |
| SdProtocol.ConfigureNotReadyDid | src/sd_card.c:96-99 | an ACMD41 loop that gave up ends the run as a failure, with no CMD16 |
| SdProtocol.ConfigureDoneDid | src/sd_card.c:101-109 | after a successful ACMD41 loop, the run succeeds exactly when CMD16(512) answers 0 |
| SdProtocol.InitRejectedDid | src/sd_card.c:64-67 | a CMD0 without the idle flag ends the whole run as a failure after CMD0 |
| SdProtocol.InitAcceptedDid | src/sd_card.c:59-117 | a CMD0 with the idle flag is followed by the rest of the run |
| SdProtocol.InitSucceeds | src/sd_card.c:64-117 | initialization succeeds exactly when CMD0 answers 0x01, the ACMD41 loop ends on 0 and CMD16 answers 0; the CMD8 answer is not a condition |
| SdProtocol.InitCommands | src/sd_card.c:59-109 | the commands in order: CMD0 first, and alone exactly when it lacks the idle flag; otherwise CMD8, then 1 to 1000 CMD55+ACMD41 pairs, then CMD16 exactly when an ACMD41 answered 0 (always so when the loop stopped early); a successful run ends with CMD16 |
| SdProtocol.NoCardInit | src/sd_card.c:52-67 | with no card (all replies 0xFF) initialization fails after the wake-up bytes, one CMD0 frame and ten polls |
| SdProtocol.ReadData | src/sd_card.c:138-159 | the data phase of a block read: a token wait of at most 1000 polls, then 512 data bytes and two CRC bytes |
| SdProtocol.ReadBlock | src/sd_card.c:129-161 | a block read that succeeds ends two CRC bytes after its 512 data bytes |
| SdProtocol.ReadBlockSucceeds | src/sd_card.c:131-150 | a block is read exactly when CMD17 answers 0 and a 0xFE token arrives within 1000 polls |
| SdProtocol.ReadBlockData | src/sd_card.c:138-159 | the data are the 512 replies right after the first 0xFE token |
| SdProtocol.ReadTx | src/sd_card.c:131-159 | a read iteration clocks out the CMD17 frame for its sector, then only 0xFF |
| SdProtocol.ReadBlocksBy | src/sd_card.c:128-164 | a multi-sector read attempts 1 to `count` blocks (none when `count` is 0), all of them on success, and delivers 512 bytes for every block before the one that failed |
| SdProtocol.ReadNext | src/sd_card.c:128-162 | the read loop stops on a block exactly when that block fails; otherwise it goes on with the next sector |
| SdProtocol.ReadEnd | src/sd_card.c:128-164 | a read loop with no block left has succeeded with everything read so far |
| SdProtocol.SectorAtWraps | src/sd_card.c:131 | the sector of block `j` is `sector + j` modulo 2^32 |
| SdProtocol.WriteBlock | src/sd_card.c:176-218 | a block write's command reply is CMD24's, and its busy wait takes 1 to 1000 polls |
| SdProtocol.WriteBlockOutcome | src/sd_card.c:178-216 | a write fails without a busy wait when CMD24 is refused or the data response's low five bits are not 00101; an accepted block succeeds exactly when a non-zero byte arrives within the first 999 busy polls |
| SdProtocol.LateReleaseFails | src/sd_card.c:205-216 | a card that releases the busy signal on exactly the 1000th poll still has its write reported as failed |
| SdProtocol.BlockTx | src/sd_card.c:185-195 | a data packet is the block plus three bytes |
| SdProtocol.WriteTx | src/sd_card.c:178-210 | a write iteration clocks out as many bytes as it makes exchanges |
| SdProtocol.WriteSendsBlock | src/sd_card.c:185-191 | once CMD24 is answered, the 0xFE token and then the block verbatim follow the command, and only 0xFF after them |
| SdProtocol.BlockOf | src/sd_card.c:189-190 | block `j` of the buffer is 512 bytes long |
| SdProtocol.WriteBlocksBy | src/sd_card.c:175-221 | a multi-sector write attempts 1 to `count` blocks (none when `count` is 0), all of them on success, and reads no data |
| SdProtocol.WriteNext | src/sd_card.c:175-219 | the write loop stops on a block exactly when that block fails; otherwise it goes on with the next sector |
| SdProtocol.WriteStops | src/sd_card.c:179-216 | a failed block ends the write loop with failure |
| SdProtocol.WriteBlocksByGoesOn | src/sd_card.c:175-219 | after a block that is written, the write loop goes on with the next block and sector from the next exchange |
| SdProtocol.WriteGoesOn | src/sd_card.c:175-219 | a written block lets the loop go on with the next block and sector |
| SdProtocol.WriteEnd | src/sd_card.c:175-221 | a write loop with no block left has succeeded |
| SdCard.Card.constructor | src/sd_card.c:8-9 | the driver starts uninitialized, with capacity 0 |
| SdCard.Card.Poll | src/sd_card.c:42-46 | the poll loop makes exactly the polls Polls gives, clocks out only 0xFF with chip select asserted for each, and returns the reply it stopped on |
| SdCard.Card.SendFrame | src/sd_card.c:26-39 | clocks out exactly the frame, six exchanges with chip select asserted |
| SdCard.Card.SendCommand | src/sd_card.c:26-49 | `sd_send_command`, called with chip select asserted, returns CommandReply's response and clocks out exactly CommandTx, with chip select asserted for every exchange |
| SdCard.Card.Init | src/sd_card.c:51-118 | `sd_init_driver` returns 0 exactly when InitRun succeeds and clocks out exactly its bytes, the ten wake-up bytes with chip select released and every later one with it asserted; on success it records the fixed capacity, and on failure the recorded state stays as it was; chip select released at the end |
| SdCard.Card.Boot | src/sd_card.c:51-109 | the bus traffic and success of the whole start-up sequence are as InitBy says, chip select released for the wake-up bytes only and at the end |
| SdCard.Card.Negotiate | src/sd_card.c:69-109 | CMD8, the ACMD41 loop and CMD16 are as Configure says, every exchange with chip select asserted |
| SdCard.Card.Reset | src/sd_card.c:52-62 | the ten wake-up bytes with chip select released, then CMD0 with it asserted for every exchange, released at the end |
| SdCard.Card.CheckInterface | src/sd_card.c:69-80 | CMD8, with the R7 tail drained exactly when it answered the idle flag, all with chip select asserted and released at the end |
| SdCard.Card.SetBlockLength | src/sd_card.c:101-104 | CMD16(512) with chip select asserted for every exchange, released at the end |
| SdCard.Card.AppOp | src/sd_card.c:85-88 | one CMD55 + ACMD41 pass, chip select asserted for all its exchanges and released at the end |
| SdCard.Card.AwaitStep | src/sd_card.c:84-94 | one pass of the retry loop either ends the loop as AppOpLoop says or leaves one try fewer |
| SdCard.Card.AwaitReady | src/sd_card.c:83-94 | the retry loop returns AppOpLoop's last answer and clocks out its bytes, each with chip select asserted |
| SdCard.Card.Wake | src/sd_card.c:52-57 | ten 0xFF bytes, each exchange recorded with chip select released |
| SdCard.Card.ReceiveR7 | src/sd_card.c:74-77 | four 0xFF bytes with chip select asserted |
| SdCard.Card.ReceiveBlock | src/sd_card.c:152-161 | 512 replies stored at `offset`, the rest of the buffer untouched, then two CRC bytes and chip select released |
| SdCard.Card.ReceiveData | src/sd_card.c:138-161 | the token wait and data phase as ReadData says, with chip select asserted, released at the end |
| SdCard.Card.ReadOne | src/sd_card.c:129-161 | one read iteration as ReadBlock says, every exchange with chip select asserted; on success the block lands at `offset` |
| SdCard.Card.ReadStep | src/sd_card.c:128-162 | one iteration of the read loop keeps the loop's invariant or ends it as ReadBlocks says |
| SdCard.Card.ReadLoop | src/sd_card.c:128-164 | the read loop does what ReadBlocksBy says, and the buffer holds the data read followed by its old contents |
| SdCard.Card.ReadSectors | src/sd_card.c:120-165 | `sd_read_sectors` returns -1 with no exchange and the buffer untouched when not initialized; otherwise as ReadBlocks says, every exchange with chip select asserted, the buffer holding the sectors read before any failure and its old contents from there on |
| SdCard.Card.SendBlock | src/sd_card.c:185-195 | clocks out the token, block `i` of the buffer and two CRC bytes, with chip select asserted |
| SdCard.Card.SendData | src/sd_card.c:185-216 | the data packet, the data response and, only when the card accepted the block, the busy polls; success exactly when the block was accepted and a non-zero byte ended the busy wait before its counter ran out; chip select asserted throughout and released at the end |
| SdCard.Card.Receive | src/sd_card.c:20-24 | one 0xFF exchange returning the card's reply |
| SdCard.Card.WriteOne | src/sd_card.c:176-218 | one write iteration as WriteBlock says, clocking out exactly WriteTx with chip select asserted for every exchange |
| SdCard.Card.WriteStep | src/sd_card.c:175-219 | one iteration of the write loop keeps the loop's invariant or ends it as WriteBlocks says |
| SdCard.Card.WriteLoop | src/sd_card.c:175-221 | the write loop does what WriteBlocksBy says on the buffer's contents |
| SdCard.Card.WriteSectors | src/sd_card.c:167-222 | `sd_write_sectors` returns -1 with no exchange when not initialized; otherwise as WriteBlocks says, every exchange with chip select asserted; the buffer is never written |
| SdCard.Card.SectorsCount | src/sd_card.c:224-226 | the capacity is 2097152 sectors once initialized and 0 before |
| Keymap.CharToKeycode | src/main.c:311-356 | every result is 0 or a key of the typing block of page 0x07 |
| Keymap.KeycodeCarriesChar | src/main.c:311-356 | every mapped character is the legend of its key, on the upper half exactly when it is a shifted character |
| Keymap.PlainLegendMapsBack | src/main.c:321-354 | every unshifted legend of a key is mapped to that key |
| Keymap.ShiftedLegendMapsBack | src/main.c:321-354 | every shifted legend of a key is mapped to that key, and counts as shifted exactly when shift changes what the key types |
| Keymap.UnmappedIsNoLegend | src/main.c:354 | a character mapped to 0 is no legend of any key |
| Keymap.LettersIgnoreCase | src/main.c:312-313 | both cases of a letter map to `HID_KEY_A` plus its alphabet position |
| Keymap.ShiftPartnersShareKey | src/main.c:321-353 | every shifted symbol is mapped, and to the key of its unshifted partner |
| Ducky.LeadingDigits | src/main.c:263 | the digits a string starts with |
| Ducky.LeadingSpaces | src/main.c:263 | the whitespace `atoi` skips |
| Ducky.Atoi | src/main.c:263 | `atoi` stays within the range of `int` |
| Ducky.Decimal | src/main.c:262-263 | a decimal numeral is a non-empty string of digits |
| Ducky.DecimalValueOf | src/main.c:263 | a numeral's value is its number |
| Ducky.DigitsThenStop | src/main.c:263 | `atoi` reads exactly the digits before the first non-digit |
| Ducky.AtoiDecimal | src/main.c:263 | `atoi` reads back every numeral in the range of `int`, whatever non-digit follows it |
| Ducky.Press | src/main.c:269-275 | a press report carries the character's key, with left shift exactly for the upper-case letters and the twenty symbols the code lists, `~` not among them |
| Ducky.TildeTypedAsGrave | src/main.c:272 | STRING presses the `~` key without shift, so the host types a backquote |
| Ducky.PressIntended | src/main.c:272 | the intended press report carries the character's key, with left shift exactly for characters on the upper half of their key |
| Ducky.PressDiffersOnlyOnTilde | src/main.c:272 | the code's shift decision differs from the intended one for `~` alone |
| Ducky.PressIntendedTypesChar | src/main.c:266-280 | with the intended shift, every character the keymap knows is typed back by its press report |
| Ducky.PressTypesChar | src/main.c:266-280 | every character the keymap knows is typed back by its press report, except `~`, which comes out as a backquote |
| Ducky.NoKeyTypesNothing | src/main.c:358-365 | a report without a key types nothing |
| Ducky.TypeText | src/main.c:266-280 | STRING sends two reports per character |
| Ducky.TypeTextAlternates | src/main.c:266-280 | the reports alternate: the press of each character, shifted as the code's list says, then a release |
| Ducky.TypeTextRoundTrip | src/main.c:266-280 | a host reading the reports types every known character of the text back, in order, with `~` as a backquote, and drops the others |
| Ducky.HostTextWithoutTilde | src/main.c:272 | on a text without `~`, what the host types is exactly the text's known characters |
| Ducky.TypeTextWithoutTilde | src/main.c:266-280 | a text without `~` is typed back exactly, as far as the keymap knows its characters |
| Ducky.StringTilde | src/main.c:266-280 | the line `STRING ~` sends the grave key without shift, then a release, and the host types a backquote |
| Ducky.TypeTextIntended | src/main.c:266-280 | the intended STRING also sends two reports per character |
| Ducky.TypeTextIntendedRoundTrip | src/main.c:266-280 | with the intended shift, a host types every known character of the text back as itself, in order, and drops the others |
| Ducky.LeadingBlanks | src/main.c:260 | only spaces and tabs are skipped, up to the first other character |
| Ducky.OnlyDelaySetsDelay | src/main.c:262-308 | only DELAY changes the delay, and DELAY sends nothing |
| Ducky.RunReleases | src/main.c:266-308 | every command sends its reports in pairs, each key press followed by the release report |
| Ducky.DelayLine | src/main.c:262-264 | `DELAY n` parses as DELAY and sets the delay to exactly `n` |
| Ducky.ParseSkipsBlank | src/main.c:260 | a leading blank does not change the command |
| Ducky.KeyNameIsWholeLine | src/main.c:282-286 | `ENTER` is a tap of Enter, but `ENTER` followed by a blank is no command |
| Ducky.SkipBreaks | src/main.c:229-233 | the position moves over line breaks only, up to the first other character |
| Ducky.LineStop | src/main.c:243-248 | a line stops at a line break, at the end of the script or after 255 characters, with no break before it |
| Ducky.StepFindsLine | src/main.c:229-248 | a line to run is a non-empty run of at most 255 characters with no line break or NUL, right after the skipped breaks; the end is found only past nothing but breaks |
| Ducky.TickRunsLine | src/main.c:242-255 | a call that runs a line moves the position past it, never back and never beyond the end, sends the line's reports after those already sent, takes its delay and records the time |
| Ducky.TickEnds | src/main.c:235-240 | a call that finds only line breaks left stops the script and keeps the time of the last line and the delay |
| Ducky.TickWaits | src/main.c:220-223 | nothing changes when the script is not loaded or not running, or when fewer than `key_delay` ms have passed in wrapping `uint32_t` arithmetic |
| Ducky.TickKeeps | src/main.c:219-256 | the script and the loaded flag never change, and the position never moves back and stays within the script |
| Ducky.Interpreter.constructor | src/main.c:35-40 | the statics at boot: not running, position 0, delay 50 |
| Ducky.Interpreter.Start | src/main.c:516-519 | the script starts running only when it was loaded |
| Ducky.Interpreter.SendReport | src/main.c:358-366 | the report is recorded as sent |
| Ducky.Interpreter.TypeString | src/main.c:266-280 | the character loop sends exactly TypeText's reports, with the code's shift decision |
| Ducky.Interpreter.TapKey | src/main.c:282-286 | a press and a release |
| Ducky.Interpreter.ParseCommand | src/main.c:258-309 | `parse_ducky_command` sets the delay and sends the reports Interpret gives, STRING included as the code shifts it |
| Ducky.Interpreter.Process | src/main.c:219-256 | `process_ducky_script` changes the state exactly as Tick says |
| Ducky.Interpreter.RunLineAt | src/main.c:242-255 | the line from `start` is run, the position moves past it, and the time is recorded |
| Ducky.Interpreter.CopyLine | src/main.c:243-249 | the copy loop yields exactly the script's characters up to LineStop |
| DiskIo.DriverResult | src/diskio.c:25-28 | RES_OK exactly when the driver returned 0, RES_ERROR otherwise |
| DiskIo.Initialize | src/diskio.c:6-14 | STA_NOINIT without touching the card for any drive but 0; for drive 0 the driver's initialization runs, and the status is 0 exactly when it succeeded |
| DiskIo.DiskStatus | src/diskio.c:16-19 | 0 exactly for drive 0, STA_NOINIT otherwise |
| DiskIo.Read | src/diskio.c:21-29 | RES_PARERR with the card and buffer untouched for any drive but 0; for drive 0 the driver's read, with RES_OK exactly when it succeeded |
| DiskIo.Write | src/diskio.c:31-39 | RES_PARERR with the card untouched for any drive but 0; for drive 0 the driver's write, with RES_OK exactly when it succeeded |
| DiskIo.Ioctl | src/diskio.c:41-65 | RES_OK exactly for drive 0 and the four known codes, with nothing stored otherwise; CTRL_SYNC stores nothing; the sector count, the WORD 512 and the DWORD 1 are stored for the other three |
| DiskIo.Geometry | src/diskio.c:49-60 | drive 0 reports 0 sectors before initialization and 2097152 after, sectors of 512 bytes and erase blocks of 1, all with RES_OK |
| DiskIo.UnpackPack | src/diskio.c:69-76 | unpacking a packed time stamp whose fields are in range gives back every field |
| DiskIo.PackUnpack | src/diskio.c:69-76 | a packed word whose fields are in range is the packing of its fields |
| DiskIo.FatTime | src/diskio.c:67-77 | `get_fattime` unpacks to 1 January 2023, 00:00:00, with every field in range |
| DiskIo.FatTimeIsNewYear2023 | src/diskio.c:67-77 | the time stamp is 0x56210000, the packed form of that date |
| UsbStrings.CharCount | src/main.c:138-139 | the number of characters sent is `strlen` cut to 31 (through its `uint8_t` store) |
| UsbStrings.Words | src/main.c:128-146 | every descriptor fits the 32-word buffer |
| UsbStrings.Units | src/main.c:140-142 | one code unit per character |
| UsbStrings.StringWords | src/main.c:137-144 | a string descriptor fits the 32-word buffer |
| UsbStrings.StringRoundTrip | src/main.c:137-144 | a host decodes a string descriptor as type 3 holding the string's first characters up to its NUL, at most 31 of them |
| UsbStrings.LanguageRoundTrip | src/main.c:132-134 | descriptor 0 has header 0x0304 and decodes as the one language ID 0x0409 |
| UsbStrings.TableRoundTrip | src/main.c:119-124 | each of the three strings of the table decodes whole, up to its terminator |
| UsbStrings.StringBuffer.constructor | src/main.c:126 | a zeroed buffer of 32 words |
| UsbStrings.StringBuffer.Get | src/main.c:128-146 | a non-NULL result exactly for indices below 4, with the buffer starting with that entry's descriptor and the rest unchanged; for any other index the buffer is untouched |
| UsbStrings.StringBuffer.PutString | src/main.c:137-144 | the buffer starts with the string's descriptor; the rest is unchanged |
| UsbStrings.StringBuffer.CopyChars | src/main.c:140-142 | words 1 to `n` hold the first `n` characters; the others are unchanged |
| Msc.Transferred | src/main.c:432-435 | a callback returns the byte count as `int32_t` on success and -1 on failure |
| Msc.Storage.constructor | src/main.c:44 | nothing is mounted at boot |
| Msc.Storage.Mount | src/main.c:168-177 | the card counts as mounted once the driver initialized it and FatFs mounted it; the driver's own initialization clocks out exactly InitRun's bytes, chip select released only for the wake-up bytes |
| Msc.Storage.TestUnitReady | src/main.c:404-407 | ready exactly when mounted, and then the card is initialized with its full capacity |
| Msc.Storage.ReportCapacity | src/main.c:409-417 | the block size is always 512, and the block count is 2097152 when mounted and 0 otherwise |
| Msc.Storage.Read10 | src/main.c:427-436 | -1 with card and buffer untouched when not mounted; otherwise `bufsize / 512` sectors from `lba + offset / 512` are read as the driver's ReadBlocks says, returning `bufsize` on success and -1 on failure |
| Msc.Storage.Write10 | src/main.c:438-447 | -1 with the card untouched when not mounted; otherwise `bufsize / 512` sectors from `lba + offset / 512` are written as WriteBlocks says, returning `bufsize` on success and -1 on failure |
| Msc.FirstSectorWraps | src/main.c:432 | a transfer past sector 2^32 - 1 wraps around to the low sectors |
| Msc.SuccessReportsSize | src/main.c:433-435 | a transfer below 2^31 bytes reports its exact size on success, and -1 on failure |

## Left out

- The SPI peripheral, the GPIO pins and `spi_init`. The card is the stream of bytes it clocks back (past its end the line reads 0xFF); what the host clocks out is a log. Since the driver is deterministic, every card is covered by some stream.
- `sleep_ms` in the ACMD41 loop and in `parse_ducky_command`. Iteration counts bound the loops; wall-clock time is not modelled.
- `board_millis`: the current time is a parameter of `Process`.
- `printf`: diagnostics only. The R7 bytes of CMD8 are read and otherwise ignored, as in the code.
- FatFs itself:
  - `f_mount` is the `mountOk` parameter of `Msc.Storage.Mount`;
  - `load_ducky_script` (`f_open`/`f_read`, and the built-in default script) only supplies the script and the loaded flag to the `Ducky.Interpreter` constructor;
  - `tud_msc_write10_complete_cb` only calls `f_sync`.
- TinyUSB:
  - `tud_hid_ready`/`tud_hid_keyboard_report` are not modelled: `send_hid_report` records every report it is asked to send, so a report dropped because the HID endpoint is busy is not captured;
  - `tud_msc_set_sense` and `tud_msc_scsi_cb`, `tud_msc_inquiry_cb`, `tud_msc_start_stop_cb`, and the device, configuration and HID report descriptors are left out (constant data and plumbing).
- `main`, `init_sd_card`'s pin set-up and `blink_led`: start-up plumbing. `Ducky.Interpreter.Start` models only the start of the script after the host connects.
- Concurrency between the FatFs and mass-storage users of the card. There is no locking in the code, and every call is treated as sequential.
- Characters are Dafny characters. `UsbStrings.Unit` keeps the low byte of each, as a C `char` holds it, and does not model sign extension of non-ASCII bytes into the 16-bit code unit. The strings of the table are ASCII.
- The data stored on the card: what a sector read returns after a write depends on the card, not on the driver, so there is no read-after-write round trip.
- `Msc.Storage.Read10` and `Msc.Storage.Write10` take the buffer's size as a precondition (`bufsize` no larger than the buffer), as TinyUSB guarantees; they do not model an undersized buffer.
- Msc.Storage.Mount: the bus record holds only what `sd_init_driver` clocks out. `f_mount(&fs, "", 1)` mounts at once, so FatFs calls `disk_initialize` (running `sd_init_driver` a second time) and reads the boot sector through `disk_read`. That traffic is not modelled, because FatFs is not part of this model.
- `Ducky.DelayOf`: `atoi` on a value outside `int` is modelled by clamping to `INT_MIN`/`INT_MAX`, as `strtol` does on a 32-bit `long`; the C standard leaves that case undefined.

## Findings

| source | as written | input that shows it | evidently intended | confidence | as-written member | corrected member |
|---|---|---|---|---|---|---|
| src/main.c:272 | STRING holds shift only for upper-case letters and `!@#$%^&*()_+{}\|:"<>?`; the list lacks `~`, although `char_to_keycode` maps `~` to the grave key | `STRING ~` sends (0, HID_KEY_GRAVE), which a US-layout host types as a backquote | shift held for `~` as for every other upper-half legend, so `~` is typed | not executed | Ducky.StringTilde | Ducky.TypeTextIntendedRoundTrip |
