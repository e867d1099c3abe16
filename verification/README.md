# Rust training material: cheatsheet tool, C parser and CMSDK drivers

This project models and proves properties of four pieces of a Rust
training repository:

- **The cheatsheet tool** (`xtask/src/tasks.rs`). The tool reads the course
  outline `SUMMARY.md`. It keeps the part between `# Rust Fundamentals` and
  `# No-Std Rust` and groups the kept lines into one section per heading.
  It then either renders a `<lang>-cheatsheet.md` or checks an existing one
  against the outline. The file system is a map from path to contents.
  Every panic of the source is an explicit error value or verdict.
- **`cool_library_function`** (`cool_library.c`). It parses a NUL-terminated
  string of decimal digits into an `unsigned int`. It returns 0 at the
  first non-digit and wraps around modulo 2^32.
- **The CMSDK timer driver** (`cmsdk_timer/mod.rs`, `cmsdk_timer/registers.rs`).
  - A class `Timer` holds the registers as fields.
  - The hardware clock is one method, `Tick`, which counts the value down
    and, when it reaches zero with `interrupt_enable` set, raises the
    interrupt flag.
  - `delay_ns` is proved to make the exact sequence of register stores and
    to wait the number of clocks it computes.
- **The basic CMSDK UART driver** (`cmsdk_uart/basic.rs`, `cmsdk_uart/registers.rs`).
  - Classes `Registers`, `Tx`, `Rx` and `Uart` share one register block, as
    the source's clones of one `MmioRegisters` do.
  - `init`, `check`, `read` and `write` are modelled with their error paths.

Some modelling choices apply throughout:

- **Bitfield registers.** A 32-bit value is the set of positions of its 1
  bits (`Bits.Word`). A one-bit field is its position, and `Bits.Raw` gives
  the unsigned value.
- **Register layouts.** `#[repr(C)]` layouts are lists of named fields
  (`MmioLayout.Layout`) with computed byte offsets.
- **Store logs.** Register stores are appended to a ghost `writes` log, so
  the order of stores is stated.

Source paths below are relative to the repository root.

## Model

| member | source | states |
|---|---|---|
| RustStr.Find | xtask/src/tasks.rs:130-132 | `str::find`: `None` exactly when the pattern does not occur; otherwise the first index where it occurs |
| RustStr.RFind | xtask/src/tasks.rs:133-135 | `str::rfind`: `None` exactly when the pattern does not occur; otherwise the last index where it occurs |
| RustStr.FindChar | xtask/src/tasks.rs:102-104 | `find('[')` finds a character exactly when it is in the line, at its first position |
| RustStr.RFindChar | xtask/src/tasks.rs:99-101 | `rfind(']')` finds a character exactly when it is in the line, at its last position |
| RustStr.Lines | xtask/src/tasks.rs:140 | `str::lines`: no line contains `'\n'` |
| RustStr.LinesOfUnlines | xtask/src/tasks.rs:235 | splitting a text built by pushing plain lines, each followed by `'\n'`, gives those lines back |
| RustStr.UnlinesAppend | xtask/src/tasks.rs:327 | appending buffers of lines is appending their texts |
| RustStr.TrimStart | xtask/src/tasks.rs:141 | the result is a suffix; everything removed is whitespace; it does not start with whitespace |
| RustStr.TrimEnd | xtask/src/tasks.rs:141 | the result is a prefix; everything removed is whitespace; it does not end with whitespace |
| RustStr.Trim | xtask/src/tasks.rs:141 | `str::trim`: the result occurs in the input and has no whitespace at either end |
| RustStr.TrimIsSlice | xtask/src/tasks.rs:141 | the trimmed string is the slice of the input that starts where `trim_start`'s result starts, so only the whitespace prefix `TrimStart` drops is removed before it |
| RustStr.TrimDropsTrailingWhitespace | xtask/src/tasks.rs:141 | everything of the input after the trimmed slice is whitespace |
| Outline.DeckTitle | xtask/src/tasks.rs:94-106 | succeeds exactly on lines starting `* [`, ending `.md)` and holding a `]`, and then gives the text between `* [` and the last `]`; a line failing either `assert!` is `NotADeckLine`, and one that passes both but has no `]` is `MissingCloseBracket` |
| Outline.DeckTitleOfLink | xtask/src/tasks.rs:336-345 | every line `* [title](./file.md)` gives back exactly `title`, brackets and parentheses in the title included |
| Outline.Window | xtask/src/tasks.rs:123-137 | a missing first or last heading is its own error, and so are slice bounds in the wrong order; otherwise the first `# Rust Fundamentals` and the last `# No-Std Rust` bound the window |
| Outline.OutlineLinesKept | xtask/src/tasks.rs:139-146 | every kept line is trimmed, non-empty and starts with `*` or `#` |
| Outline.GroupOutlineLines | xtask/src/tasks.rs:140-157 | the grouping loop returns `Chunks` of the kept lines |
| Outline.FocusRegions | xtask/src/tasks.rs:118-160 | `focus_regions` returns exactly `FocusedChunks` (window, kept lines, chunking) |
| Outline.FocusedChunksShape | xtask/src/tasks.rs:118-160 | on success the chunks are a correct chunking whose concatenation is the kept lines of the window, every line trimmed and starting with `*` or `#` |
| Outline.DeckTitles | xtask/src/tasks.rs:172-175 | succeeds exactly when every deck line parses, giving one title per line in order; otherwise reports the error of a failing line |
| Outline.ToSection | xtask/src/tasks.rs:165-181 | fewer than two lines, or a first line without `# `, are their own errors; on success the header is the first line without `# ` and there is one title per remaining line |
| Outline.ChunkSections | xtask/src/tasks.rs:189-192 | succeeds exactly when every chunk converts, giving the sections in chunk order |
| Chunking.ScanStepKeepsInvariant | xtask/src/tasks.rs:148-152 | one iteration of the grouping loop keeps the loop invariant (closed chunks well formed, lines preserved) |
| Chunking.ChunksAreChunking | xtask/src/tasks.rs:147-157 | the chunks are well formed (non-empty, headings only at chunk starts) and concatenate back to the input lines |
| Chunking.ChunksOfFlatten | xtask/src/tasks.rs:235-249 | the grouping loop, run on the concatenation of well-formed chunks, gives those chunks back |
| Chunking.ScanFromAppend | xtask/src/tasks.rs:140-153 | running the loop on `a + b` is running it on `a`, then on `b` |
| CheatsheetCheck.CheatLinesKept | xtask/src/tasks.rs:235-238 | the kept cheatsheet lines are exactly the input's non-empty `#` lines |
| CheatsheetCheck.CheatLinesAppend | xtask/src/tasks.rs:235-238 | filtering `a + b` is filtering `a`, then `b`: order and repetitions are kept |
| CheatsheetCheck.CheatLinesOne | xtask/src/tasks.rs:235-238 | a single line is kept exactly when it starts with `#` |
| CheatsheetCheck.ChunkCheatsheet | xtask/src/tasks.rs:231-249 | the cheatsheet loop returns `Chunks` of the kept lines |
| CheatsheetCheck.MissingDecks | xtask/src/tasks.rs:282-293 | no complaint exactly when every deck of the section has a `## deck` line in the chunk |
| CheatsheetCheck.MissingDecksComplete | xtask/src/tasks.rs:282-293 | every deck of the section without a `## deck` line in the chunk is complained about |
| CheatsheetCheck.MissingDecksAppend | xtask/src/tasks.rs:282-293 | the complaints for `a + b` are those for `a`, then those for `b` |
| CheatsheetCheck.MissingDecksOne | xtask/src/tasks.rs:282-293 | one deck gives one complaint exactly when its `## deck` line is absent |
| CheatsheetCheck.MissingDecksAreMissing | xtask/src/tasks.rs:282-293 | every complaint names the chunk's heading and a deck of the section whose `## deck` line is absent |
| CheatsheetCheck.CompareDecks | xtask/src/tasks.rs:282-293 | the inner loop gives exactly `MissingDecks` |
| CheatsheetCheck.CheckChunk | xtask/src/tasks.rs:262-294 | one iteration gives exactly `ChunkCheck`: `HEADERS[idx]` panics past the fourth chunk, a heading-only chunk is a complaint, and `slide_sections[idx]` panics past the last section |
| CheatsheetCheck.CheckCheatsheet | xtask/src/tasks.rs:252-300 | the comparison loop with its `missing_files` flag gives exactly `Check` |
| CheatsheetCheck.CheckStopped | xtask/src/tasks.rs:264-282 | after a panic, later chunks change nothing |
| CheatsheetCheck.ChunkCheckFacts | xtask/src/tasks.rs:262-294 | one iteration panics exactly when its chunk lies past the fourth or has decks but no outline section; without a panic it says nothing exactly when the chunk is in sync |
| CheatsheetCheck.CheckUpToFacts | xtask/src/tasks.rs:256-294 | the loop has not panicked exactly when every chunk so far is safe to index; with no panic, it has no complaint exactly when there are four chunks and all of them so far are in sync |
| CheatsheetCheck.CheckInSync | xtask/src/tasks.rs:295-300 | the check succeeds exactly when there are four chunks, each with the expected heading, at least one deck line and every deck of its section; success prints no complaint |
| CheatsheetCheck.CheckUpToGrows | xtask/src/tasks.rs:256-294 | later iterations only add complaints; none is taken back |
| CheatsheetCheck.ChunkComplaints | xtask/src/tasks.rs:262-294 | one iteration complains about a wrong heading, a heading-only chunk, and every missing deck of its section |
| CheatsheetCheck.StepComplaintsKept | xtask/src/tasks.rs:256-294 | every complaint of a chunk the loop reaches is in the final report |
| CheatsheetCheck.ReachedChunkComplaints | xtask/src/tasks.rs:262-294 | a chunk reached without a panic has its complaints in the final result: a wrong heading, a heading-only chunk, and every missing deck |
| CheatsheetCheck.CheckWithoutIndexPanic | xtask/src/tasks.rs:252-294 | the check ends in its own verdict, not an `expect` or indexing panic, exactly when the cheatsheet has chunks and each is safe to index |
| Render.DeckLines | xtask/src/tasks.rs:322-325 | one `## title` line per deck, in deck order |
| Render.RenderCheatsheet | xtask/src/tasks.rs:318-331 | the two nested loops build exactly the rendered lines, each followed by `'\n'` |
| Render.RenderLinesCount | xtask/src/tasks.rs:318-331 | the cheatsheet has two lines per section plus one per deck |
| Render.RenderedLines | xtask/src/tasks.rs:318-331 | when no header or title holds a line break, splitting the rendered text gives back the rendered lines |
| Tasks.CheatsheetPath | xtask/src/tasks.rs:195 | the cheatsheet path is never the outline's path |
| Tasks.TestCheatsheet | xtask/src/tasks.rs:216-301 | `test_cheatsheet` returns exactly `TestOutcome`: a missing outline, a failing outline, a missing cheatsheet, or the comparison report |
| Tasks.MakeOutcome | xtask/src/tasks.rs:184-213 | on success the file system gains exactly the cheatsheet path and keeps every other file. It creates exactly when the outline parses and no cheatsheet exists, and the new file is the outline's rendered cheatsheet; otherwise it changes nothing and reports `test_cheatsheet`'s result |
| Tasks.MakeCheatsheet | xtask/src/tasks.rs:184-213 | `make_cheatsheet` returns exactly `MakeOutcome` |
| Tasks.MakeTwice | xtask/src/tasks.rs:198-211 | a second `make_cheatsheet` creates nothing and changes no file; it only checks |
| Tasks.RenderedChunks | xtask/src/tasks.rs:231-249 | reading a rendered cheatsheet back gives one chunk per section: its heading and its deck lines |
| Tasks.RenderedCheatsheetInSync | xtask/src/tasks.rs:318-331 | a cheatsheet rendered from a conforming outline checks as in sync with no complaint |
| Tasks.MakeThenTest | xtask/src/tasks.rs:200-205 | after `make_cheatsheet` creates a conforming outline's cheatsheet, `test_cheatsheet` finds it in sync |
| CoolLibrary.NulIndex | example-code/native/ffi/use-c-in-rust/src/cool_library.c:9 | the loop stops at the first NUL byte |
| CoolLibrary.CoolLibraryFunction | example-code/native/ffi/use-c-in-rust/src/cool_library.c:7-15 | the loop over memory up to the NUL returns `Parse` of the string |
| CoolLibrary.RunStopped | example-code/native/ffi/use-c-in-rust/src/cool_library.c:11 | after the early `return 0`, further characters change nothing |
| CoolLibrary.ParseDigits | example-code/native/ffi/use-c-in-rust/src/cool_library.c:9-13 | on digits the result is the decimal value modulo 2^32 |
| CoolLibrary.ParseNonDigit | example-code/native/ffi/use-c-in-rust/src/cool_library.c:11 | any non-digit anywhere in the string makes the result 0 |
| CoolLibrary.ParseAppendDigit | example-code/native/ffi/use-c-in-rust/src/cool_library.c:10-12 | appending a digit gives `(10 * previous + digit) mod 2^32` |
| CoolLibrary.ParseOneTwoThree | example-code/native/ffi/use-c-in-rust/src/main.rs:19-23 | `"123"` gives 123 |
| CoolLibrary.ParseLeadingX | example-code/native/ffi/use-c-in-rust/src/main.rs:25-29 | `"x123"` gives 0 |
| Bits.With | example-code/qemu-common/src/cmsdk_timer/registers.rs:25-35 | `with_<field>(b)` makes the field read `b` and keeps every other bit |
| Bits.WithOthers | example-code/qemu-common/src/cmsdk_timer/registers.rs:25-35 | setting one field leaves any other field's reading unchanged |
| Bits.RawFits | example-code/qemu-common/src/cmsdk_timer/registers.rs:25 | a register's raw value is below 2^32 |
| Bits.RawLow | example-code/qemu-common/src/cmsdk_timer/registers.rs:37-42 | the raw value of a word with bits only below `n` is the value of those `n` bits |
| MmioLayout.FieldInside | example-code/qemu-common/src/cmsdk_timer/registers.rs:3-23 | in a `#[repr(C)]` block of `u32` fields every field is word aligned and lies inside the block |
| MmioLayout.FieldsDisjoint | example-code/qemu-common/src/cmsdk_timer/registers.rs:3-23 | two fields never overlap |
| TimerRegisters.RegisterOffsets | example-code/qemu-common/src/cmsdk_timer/registers.rs:5-9 | control, value, reload and interrupt sit at 0x0, 0x4, 0x8 and 0xC |
| TimerRegisters.PeripheralIdOffsets | example-code/qemu-common/src/cmsdk_timer/registers.rs:10-18 | after 0x3F0 reserved words the peripheral ID words run from 0xFD0 (PID4) to 0xFEC (PID3) |
| TimerRegisters.ComponentIdOffsets | example-code/qemu-common/src/cmsdk_timer/registers.rs:19-23 | the component ID words run from 0xFF0 to 0xFFC and the block is 0x1000 bytes |
| TimerRegisters.ControlFieldsIndependent | example-code/qemu-common/src/cmsdk_timer/registers.rs:25-35 | setting one control field gives that field the value set and leaves the others as they were |
| TimerRegisters.InterruptValue | example-code/qemu-common/src/cmsdk_timer/registers.rs:37-42 | the builder from the default 0 sets `interrupt_bit` and nothing else |
| TimerRegisters.AfterInterruptWrite | example-code/qemu-common/src/cmsdk_timer/registers.rs:39-41 | write-1-to-clear: the flag stays up exactly when it was up and the written bit 0 is clear |
| TimerRegisters.ClearingWrite | example-code/qemu-common/src/cmsdk_timer/registers.rs:37-42 | the clearing value is raw 1 and clears the flag; the default value leaves it alone |
| CmsdkTimer.Timer.SetFrequency | example-code/qemu-common/src/cmsdk_timer/mod.rs:22-24 | reload becomes the truncated quotient: `reload * freq <= sys_clk < (reload + 1) * freq`; one reload store, nothing else changes |
| CmsdkTimer.Timer.WriteReload | example-code/qemu-common/src/cmsdk_timer/mod.rs:30-32 | sets reload only, leaving the current value alone |
| CmsdkTimer.Timer.WriteValue | example-code/qemu-common/src/cmsdk_timer/mod.rs:36-38 | sets the current value only |
| CmsdkTimer.Timer.InterruptFired | example-code/qemu-common/src/cmsdk_timer/mod.rs:42-44 | true exactly when `interrupt_bit` is set |
| CmsdkTimer.Timer.ClearInterrupt | example-code/qemu-common/src/cmsdk_timer/mod.rs:48-54 | stores the `interrupt_bit` value, which lowers the flag and keeps other bits |
| CmsdkTimer.Timer.Enable | example-code/qemu-common/src/cmsdk_timer/mod.rs:58-60 | read-modify-write setting `enable`, one control store |
| CmsdkTimer.Timer.EnableInterrupt | example-code/qemu-common/src/cmsdk_timer/mod.rs:66-69 | read-modify-write setting `interrupt_enable` to the argument |
| CmsdkTimer.Timer.Read | example-code/qemu-common/src/cmsdk_timer/mod.rs:73-75 | returns the current value |
| CmsdkTimer.Timer.Disable | example-code/qemu-common/src/cmsdk_timer/mod.rs:79-81 | read-modify-write clearing `enable` |
| CmsdkTimer.NoSaturation | example-code/qemu-common/src/cmsdk_timer/mod.rs:103-104 | two `u32` operands never saturate the `u64` product, so the tick count is `ns * sys_clk / 10^9` |
| CmsdkTimer.ChunkTicks | example-code/qemu-common/src/cmsdk_timer/mod.rs:109 | a pass waits between 1 and the remaining clocks: all of them, or `u32::MAX` |
| CmsdkTimer.ChunkOrder | example-code/qemu-common/src/cmsdk_timer/mod.rs:110-116 | each pass stores the count, starts the timer, stops it, and stores raw 1 to clear the flag; start and stop touch only `enable` |
| CmsdkTimer.LoopTicksSum | example-code/qemu-common/src/cmsdk_timer/mod.rs:107-118 | the counts stored by the loop add up to the clocks asked for |
| CmsdkTimer.LoopTicksBounds | example-code/qemu-common/src/cmsdk_timer/mod.rs:107-118 | every stored count is between 1 and `u32::MAX` |
| CmsdkTimer.LoopPasses | example-code/qemu-common/src/cmsdk_timer/mod.rs:107-118 | the loop makes `ceil(ticks / u32::MAX)` passes |
| CmsdkTimer.DelayValueWrites | example-code/qemu-common/src/cmsdk_timer/mod.rs:99-120 | the counts `delay_ns` stores add up to `ns * sys_clk / 10^9`. There are `ceil(. / u32::MAX)` of them, each between 1 and `u32::MAX` |
| CmsdkTimer.ShortDelay | example-code/qemu-common/src/cmsdk_timer/mod.rs:103-107 | the delay is zero clocks exactly when `ns * sys_clk < 10^9`, and then only the three control stores are made |
| CmsdkTimer.DelayEndsStopped | example-code/qemu-common/src/cmsdk_timer/mod.rs:105-119 | the delay leaves the timer stopped with its interrupt disabled and every other control bit as on entry |
| CmsdkTimer.Timer.Tick | example-code/qemu-common/src/cmsdk_timer/mod.rs:112-114 | the hardware clock being waited on: count down; at zero, reload, and raise the flag only if `interrupt_enable` is set |
| CmsdkTimer.DelayTimer.SpinUntilInterrupt | example-code/qemu-common/src/cmsdk_timer/mod.rs:112-114 | the spin ends with the flag up; started with the flag down it waits exactly the loaded count, with the flag up it waits none |
| CmsdkTimer.DelayTimer.WaitPass | example-code/qemu-common/src/cmsdk_timer/mod.rs:109-117 | one pass makes the four pass stores, waits its count unless the flag was already up, and leaves the flag clear |
| CmsdkTimer.DelayTimer.WaitPasses | example-code/qemu-common/src/cmsdk_timer/mod.rs:107-118 | the loop makes exactly `LoopWrites`. It waits all the clocks except the first pass's when the flag was up on entry |
| CmsdkTimer.DelayTimer.DelayNs | example-code/qemu-common/src/cmsdk_timer/mod.rs:99-120 | exact store sequence `DelayWrites`; final control value; waits `ns * sys_clk / 10^9` clocks less `StaleLoss`; flag clear after any pass |
| CmsdkTimer.DelayTimer.DelayNsClearingFirst | example-code/qemu-common/src/cmsdk_timer/mod.rs:105-107 | with the flag cleared before the loop, the timer runs exactly `ns * sys_clk / 10^9` clocks |
| CmsdkTimer.StaleFlagLosesShortDelay | example-code/qemu-common/src/cmsdk_timer/mod.rs:105-114 | with the flag up on entry, a delay of at most `u32::MAX` clocks loses all of them; 10 ms at 25 MHz loses 250 000 |
| CmsdkTimer.StaleFlagExample | example-code/qemu-common/src/cmsdk_timer/mod.rs:99-120 | on a timer given `enable_interrupt(true)` and `enable()` whose count has reached zero, `delay_ns(10_000_000)` at 25 MHz waits 0 clocks; the corrected delay waits 250 000 |
| UartRegisters.RegisterOffsets | example-code/qemu-common/src/cmsdk_uart/basic.rs:13-30 | data, status, control and int_status sit at 0x0 to 0xC, PID at 0xFE0, CID at 0xFF0, and the block is 0x1000 bytes |
| UartRegisters.LayoutMatchesDocumentation | example-code/qemu-common/src/cmsdk_uart/mod.rs:3-23 | every status, control and interrupt-status field sits at the bit the module's register map documents |
| UartRegisters.FieldsDistinct | example-code/qemu-common/src/cmsdk_uart/registers.rs:3-78 | distinct fields of each register occupy distinct bits below 32 |
| UartRegisters.ControlFieldsIndependent | example-code/qemu-common/src/cmsdk_uart/registers.rs:30-51 | setting one control field leaves the others as they were |
| UartRegisters.IntStatusValue | example-code/qemu-common/src/cmsdk_uart/registers.rs:63-78 | the builder from default 0 gives each of the four flags as requested, with no bit above 3 |
| UartRegisters.ClearValues | example-code/qemu-common/src/cmsdk_uart/basic.rs:246-255 | the TX halves clear with raw 0x5 and the RX halves with raw 0xA |
| CmsdkUart.PartNumberBits | example-code/qemu-common/src/cmsdk_uart/basic.rs:150-152 | the part number is 0x821 exactly when PID0's low byte is 0x21 and PID1's low nibble is 8 |
| CmsdkUart.DivisorBound | example-code/qemu-common/src/cmsdk_uart/basic.rs:78-80 | the divisor is below 16 exactly when the clock is below 16 baud periods |
| CmsdkUart.Uart.Init | example-code/qemu-common/src/cmsdk_uart/basic.rs:70-89 | `InvalidBaudRate` exactly when `system_clock < 16 * baud_rate`, with no store. Otherwise one control store sets `txe` and `rxe` and keeps every other bit |
| CmsdkUart.Uart.Read | example-code/qemu-common/src/cmsdk_uart/basic.rs:106-112 | `WouldBlock` exactly when `rxf` is clear; otherwise the low byte of `data` |
| CmsdkUart.Uart.Write | example-code/qemu-common/src/cmsdk_uart/basic.rs:115-127 | `WouldBlock` with no store exactly when `txf` is set; otherwise one data store of the byte |
| CmsdkUart.Uart.Check | example-code/qemu-common/src/cmsdk_uart/basic.rs:135-163 | `Ok` exactly when the CID words are `[0x0D, 0xF0, 0x05, 0xB1]` and the PID part number is 0x821; otherwise `InvalidInstance` |
| CmsdkUart.Uart.ReadIntStatus | example-code/qemu-common/src/cmsdk_uart/basic.rs:167-169 | returns the interrupt status register |
| CmsdkUart.Uart.ClearInterrupts | example-code/qemu-common/src/cmsdk_uart/basic.rs:173-175 | one int_status store of the mask |
| CmsdkUart.Uart.EnableRxInterrupts | example-code/qemu-common/src/cmsdk_uart/basic.rs:179-181 | sets `rxie` and `rxoie` and keeps the other control bits; stores only to the control register, leaving the data, status and interrupt-status registers unchanged |
| CmsdkUart.Tx.Disable | example-code/qemu-common/src/cmsdk_uart/basic.rs:220-222 | clears `txe` and keeps the other control bits |
| CmsdkUart.Tx.Enable | example-code/qemu-common/src/cmsdk_uart/basic.rs:226-228 | sets `txe` and keeps the other control bits |
| CmsdkUart.Tx.EnableInterrupts | example-code/qemu-common/src/cmsdk_uart/basic.rs:232-235 | sets `txie` and `txoie` and keeps the other control bits |
| CmsdkUart.Tx.DisableInterrupts | example-code/qemu-common/src/cmsdk_uart/basic.rs:239-242 | clears `txie` and `txoie` and keeps the other control bits |
| CmsdkUart.Tx.ClearInterrupts | example-code/qemu-common/src/cmsdk_uart/basic.rs:246-255 | one int_status store with exactly `txi` and `txoi` set |
| CmsdkUart.Tx.Write | example-code/qemu-common/src/cmsdk_uart/basic.rs:258-270 | `WouldBlock` with no store exactly when `txf` is set; otherwise one data store of the zero-extended byte |
| CmsdkUart.Rx.EnableInterrupts | example-code/qemu-common/src/cmsdk_uart/basic.rs:301-307 | sets `rxie` and `rxoie` and keeps the other control bits |
| CmsdkUart.Rx.DisableInterrupts | example-code/qemu-common/src/cmsdk_uart/basic.rs:311-317 | clears `rxie` and `rxoie` and keeps the other control bits |
| CmsdkUart.Rx.Read | example-code/qemu-common/src/cmsdk_uart/basic.rs:320-326 | `WouldBlock` exactly when `rxf` is clear; otherwise `data` cut to a `u8` |
| CmsdkUart.Rx.ClearInterrupts | example-code/qemu-common/src/cmsdk_uart/basic.rs:329-338 | one int_status store with exactly `rxi` and `rxoi` set |

## Left out

- **Console output.** The printing done by `eprintln!` and `defmt`, and the
  wording of every message, are not modelled. Each complaint `eprintln!`
  prints is a `Diagnostic` value in the check's result, in order. A panic
  is the reason it stops: a `Failure` or a `Verdict`.
- **File system.** Reading and writing the file system is a map from path
  to contents. `File::create_new` is modelled as failing exactly when the
  file exists; failures for other reasons (permissions, I/O errors) are
  not modelled.
- **`test_all_cheatsheets` and the command-line dispatch.** They only loop
  `test_cheatsheet` over a fixed language list with I/O checks.
- **Literal tests.** The unit tests in `tasks.rs` are generalised
  (`DeckTitleOfLink`, `FocusedChunksShape`), not restated on their literal
  strings.
- **Unicode.** `char::is_whitespace` is a fixed list of the Unicode
  White_Space code points. Strings are sequences of code points, with no
  UTF-8 byte offsets.
- **C `char`.** `cool_library_function` works on bytes. The signedness of
  C `char` does not matter: a byte above 0x7F is rejected either way.
- **Timer counting.** The hardware's count-down is modelled only through
  `Tick`, which raises the flag only while `interrupt_enable` is set, as the
  CMSDK APB timer does. The external clock and enable inputs
  (`external_input_as_clock`, `external_input_as_enable`) and interrupt
  delivery through the NVIC are not modelled.
- **`embedded_hal` delays.** `delay_us` and `delay_ms` come from the trait's
  provided methods, which are not part of this model.
- CmsdkTimer.Timer.Enable, CmsdkTimer.Timer.Disable, CmsdkTimer.Timer.EnableInterrupt: the contracts state the new control word as `With(old, bit, b)`. That the field reads the value set and that other fields are kept is proved once, in `Bits.With` and `TimerRegisters.ControlFieldsIndependent`, rather than restated in each contract.
- **Division by zero.** `set_frequency` with `freq_hz == 0` and `init` with
  `baud_rate == 0` panic on division by zero. These are preconditions here.
- **The baud divisor.** `init` computes and checks the divisor but never
  stores it: the source's `Registers` has no `BAUDDIV` field, although the
  module's register map lists one. The model stores nothing either.
- **UART write-to-clear.** A UART `int_status` store is recorded in the log
  only. Its write-to-clear effect on the flags is not documented by the
  source's register definitions, so the register keeps its value.
- **UART data FIFO.** Reading `data` is modelled without its side effect of
  taking the byte out of the receive buffer.
- **Blocking helpers.** `write_blocking` and `core::fmt::Write::write_str`
  spin on `write` until the transmit buffer drains. That needs a model of
  the hardware draining it, which is not part of this model.
- **Other drivers.** `split`, `regs`, `steal` and `new_with_raw_addr` only
  hand out register handles. The mutex, buffered and async UART drivers
  are not part of this model.
- **`nb::Error::Other`.** `Nb` has no `Other` variant: no modelled
  operation returns it.

## Findings

| source | as written | input that shows it | evidently intended | confidence | as-written member | corrected member |
|---|---|---|---|---|---|---|
| example-code/qemu-common/src/cmsdk_timer/mod.rs:105-114 | `delay_ns` stops the timer and enables its interrupt but does not clear a flag left raised by earlier use, so the first `while !interrupt_fired()` ends at once | timer on which `enable_interrupt(true)` and `enable()` were called and whose count has since reached zero, so its flag is up; then `sys_clk_hz = 25_000_000`, `delay_ns(10_000_000)`: 0 of 250 000 clocks are waited | the flag is cleared before the loop, and the delay waits every clock it computed | low, not executed | CmsdkTimer.DelayTimer.DelayNs | CmsdkTimer.DelayTimer.DelayNsClearingFirst |
