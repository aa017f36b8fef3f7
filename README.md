# tp-led-matrix in Dafny

A model of the firmware of an 8x8 RGB LED matrix board (an STM32L4 driving a DM163 constant-current
driver by bit-banging, scheduled by RTIC). It covers four parts of the firmware:

- **`Frame`** (`image.dfy`): `Color`, its constants, `gamma_correct` and `range_dealer`.
  - `Image` as a 64-pixel row-major sequence, with `new_solid`, `default`, `row`, `(row, col)` indexing and writing.
  - The 192-byte view of an image. Byte `k` is channel `k % 3` (R, G, B) of pixel `k / 3`, as the
    `repr(C)`/`repr(transparent)` layout makes it.
- **`Graphics`** (`embedded.dfy`): the image as a drawing surface. It has the `Rgb888` conversion, the
  reported size, and `draw_iter`, which is proved against a specification of clipped, last-write-wins drawing.
- **`Driver`** (`matrix.dfy`): the `Matrix` driver as a class.
  - The thirteen output pins are its state.
  - Every pin write is appended to a ghost trace.
  - The protocol is stated as functions of traces: bytes most significant bit first, pixels in reverse
    order as blue, green, red, rows switched off after the fifth pixel's blue byte, a latch pulse, one row
    switched on, and the 144-bit bank-0 initialisation.
  - A small model of the chip's shift register (SDA sampled on each rising SCK edge) proves that the bits
    shifted in are exactly the row's bytes.
- **`Tasks`** (`tasks.dfy`): the four task bodies (`receive_byte`, `display`, `notice_change`,
  `screensaver`) over the three-node image pool, the `next_image` mailbox and the shared `changes` counter.
  - Each task body is one step function over an `AppState` value, and its properties are stated there.
  - The class `App` holds the RTIC resources, with images as pool nodes named by slot. Each method is
    proved to implement its step function and to keep every node owned exactly once.

The serial framing is modelled as the code writes it.
- At `tp-led-matrix/src/main.rs:204-208` a pending image is freed only under the test
  `next_image.is_none() != false`. That test passes only when the mailbox is empty, and then there is
  nothing to free. The code evidently means to free the pending image it is about to replace, as the
  screensaver does at `tp-led-matrix/src/main.rs:280-283`.
- As written, when a frame is pending, the current, the received and the pending image hold all three
  nodes, so the allocation at `tp-led-matrix/src/main.rs:211` fails. The newly received frame is not
  published and the older pending frame stays in the mailbox (`Tasks.PendingFrameDropped`).
- The screensaver path frees the image it evicts, and the model keeps that too.

Two other behaviours of the code are worth spelling out:
- `notice_change` increments `changes` with `checked_add` and keeps the old value on overflow, so the
  counter saturates at `u32::MAX` (`tp-led-matrix/src/main.rs:224-232`).
- When the screensaver sees new activity, it only resets its offset and records the counter
  (`tp-led-matrix/src/main.rs:294-298`). A banner of its own still in the mailbox stays there and is
  displayed.

## Model

| member | source | states |
|---|---|---|
| Frame.ColorConstants | tp-led-matrix/src/image.rs:13-15 | `RED`, `GREEN`, `BLUE` have 255 in their own channel and 0 in the others; the default colour is all zero |
| Frame.GammaCorrect | tp-led-matrix/src/image.rs:17-23 | each channel of the corrected colour is the gamma table applied to that channel alone |
| Frame.RangeDealer | tp-led-matrix/src/image.rs:27-33 | the result never exceeds `x`, and is `x` itself or 255 |
| Frame.RangeDealerMonotone | tp-led-matrix/src/image.rs:27-33 | clamping preserves order |
| Frame.NewSolid | tp-led-matrix/src/image.rs:63-66 | all 64 pixels are the given colour |
| Frame.DefaultImage | tp-led-matrix/src/image.rs:84-88 | every byte of the default image's byte view is 0 |
| Frame.Row | tp-led-matrix/src/image.rs:68-70 | row `r < 8` has 8 pixels, pixel `j` being `image[(r, j)]` |
| Frame.WithPixel | tp-led-matrix/src/image.rs:99-105 | after writing `(i, j)`, that pixel reads back the colour written and every other pixel is unchanged |
| Frame.SetPixel | tp-led-matrix/src/image.rs:99-105 | `index_mut` in place: the array afterwards is the image with pixel `8 * i + j` replaced |
| Frame.FromAsBytes | tp-led-matrix/src/image.rs:107-113 | the byte view has 192 bytes and the image can be read back from it |
| Frame.AsFromBytes | tp-led-matrix/src/image.rs:107-121 | every 192-byte string is the byte view of the image read from it, so the view is a bijection |
| Frame.ByteViewWrite | tp-led-matrix/src/image.rs:115-121 | writing byte `k` through `as_mut` reads back through `as_ref`; every other byte and every other pixel is unchanged; the view afterwards is the old view with byte `k` replaced |
| Frame.ByteViewOfIndex | tp-led-matrix/src/image.rs:90-113 | byte `3 * (8i + j) + c` of the view is channel `c` (R, G, B) of `image[(i, j)]` |
| Graphics.ColorFrom | tp-led-matrix/src/embedded.rs:8-16 | red, green and blue are copied unchanged |
| Graphics.ImageSize | tp-led-matrix/src/embedded.rs:18-22 | the size is 8 wide and covers exactly 64 pixels |
| Graphics.SizeCoversImage | tp-led-matrix/src/embedded.rs:18-36 | every point within the reported size passes `draw_iter`'s bounds test and names a pixel of the image |
| Graphics.PlotAt | tp-led-matrix/src/embedded.rs:33-36 | one drawn point sets pixel `x + 8 * y` to its colour when in bounds and changes nothing else |
| Graphics.DrawAllUntouched | tp-led-matrix/src/embedded.rs:32-37 | a pixel that no input point hits keeps its value; out-of-bounds points hit nothing |
| Graphics.DrawAllLastWins | tp-led-matrix/src/embedded.rs:32-37 | a pixel hit several times takes the colour of the last point that hits it |
| Graphics.DrawIter | tp-led-matrix/src/embedded.rs:28-39 | the loop leaves the array equal to the drawing specification applied to its old contents |
| Driver.MsbAt | tp-led-matrix/src/matrix.rs:150-156 | the bit `send_byte` tests at step `counter` is bit `7 - counter` of the most-significant-first bit string |
| Driver.MsbRoundTrip | tp-led-matrix/src/matrix.rs:149-157 | eight bits sent most significant first rebuild the byte in a shift register |
| Driver.ByteTraceMsb | tp-led-matrix/src/matrix.rs:149-157 | `send_byte`'s writes are, bit by bit from the most significant, SDA set to the bit and then an SCK pulse |
| Driver.BitsTraceOnWire | tp-led-matrix/src/matrix.rs:150-157 | sending bits drives only SDA and SCK |
| Driver.DeactivationAt | tp-led-matrix/src/matrix.rs:159-169 | `deactivate_rows` makes 8 writes, the `k`-th driving row line `k` low |
| Driver.RowBytes | tp-led-matrix/src/matrix.rs:174-189 | a row of `n` pixels is sent as `3 * n` bytes |
| Driver.RowBytesAt | tp-led-matrix/src/matrix.rs:174-189 | byte `3i + c` of a row is channel blue, green, red (for `c` = 0, 1, 2) of the gamma-corrected `i`-th pixel from the END of the row |
| Driver.BitShifted | tp-led-matrix/src/matrix.rs:153-154 | one bit step shifts exactly that bit into the chip and leaves SCK low |
| Driver.ByteShifted | tp-led-matrix/src/matrix.rs:149-157 | whatever the wire state before it, `send_byte` shifts the byte's 8 bits into the chip, most significant first |
| Driver.BitsShifted | tp-led-matrix/src/matrix.rs:150-156 | any sequence of bit steps shifts in exactly those bits, whatever the wire state |
| Driver.SckShifted | tp-led-matrix/src/matrix.rs:120-125 | an SCK pulse shifts in the current SDA level once and ends with SCK low |
| Driver.LatShifted | tp-led-matrix/src/matrix.rs:127-132 | a LAT pulse shifts nothing and leaves SDA and SCK as they were |
| Driver.DeactivationShifted | tp-led-matrix/src/matrix.rs:159-169 | switching the rows off shifts nothing into the chip |
| Driver.PixelShifted | tp-led-matrix/src/matrix.rs:178-188 | one pixel of `send_row` shifts in the bits of its three gamma-corrected bytes B, G, R, even with the row switch-off in between |
| Driver.SentShifted | tp-led-matrix/src/matrix.rs:178-188 | the first `n` pixels sent shift in exactly the bits of their bytes |
| Driver.RowShifted | tp-led-matrix/src/matrix.rs:174-192 | `send_row` shifts into the chip exactly the bits of the row's bytes in sending order; the latch pulse and the row switch-on shift nothing |
| Driver.ByteTraceNoRow | tp-led-matrix/src/matrix.rs:150-157 | sending a byte never drives a row line |
| Driver.DeactivationCount | tp-led-matrix/src/matrix.rs:159-169 | `deactivate_rows` drives each row line low exactly once |
| Driver.PixelDeactivations | tp-led-matrix/src/matrix.rs:181-184 | the pixel sent fifth (`i == 4`) drives each row line low once; no other pixel drives any |
| Driver.SentDeactivations | tp-led-matrix/src/matrix.rs:178-188 | after `n` pixels, each row line was driven low once if `n >= 5`, never otherwise |
| Driver.RowDeactivatesOnce | tp-led-matrix/src/matrix.rs:174-192 | a row of at least 5 pixels (an 8-pixel row always) drives every row line low exactly once; a shorter one never does |
| Driver.SentPixelsBytes | tp-led-matrix/src/matrix.rs:178-188 | the first `n` pixels sent are their bytes sent one by one; from the fifth pixel on, the row switch-off falls right after the 13th byte |
| Driver.RowTraceBytes | tp-led-matrix/src/matrix.rs:171-192 | `send_row` is its row's bytes sent one by one, with the eight row lines driven low right after the 13th byte (the blue byte of the fifth pixel sent) when the row has at least five pixels, then the LAT pulse and row line `row` high; a shorter row has no switch-off |
| Driver.RowEndsActive | tp-led-matrix/src/matrix.rs:190-191 | `send_row` ends with the LAT pulse followed by row line `row` driven high |
| Driver.PulsesShifted | tp-led-matrix/src/matrix.rs:201-203 | `n` SCK pulses shift in `n` copies of the SDA level and leave SDA unchanged |
| Driver.OnesShifted | tp-led-matrix/src/matrix.rs:197-207 | SB low, SDA high, `n` pulses, a latch pulse and SB high shift in `n` one-bits |
| Driver.Bank0Shifted | tp-led-matrix/src/matrix.rs:194-207 | `init_bank0` shifts exactly 144 one-bits into the chip, whatever the wire state before it |
| Driver.DriveLevel | tp-led-matrix/src/matrix.rs:135-146 | driving a pin sets that pin's level and no other pin's |
| Driver.PixelsLevelsAfter | tp-led-matrix/src/matrix.rs:178-188 | after `n > 0` pixels only SDA, SCK and the row lines have moved: SDA holds bit 0 of the last pixel's corrected red, SCK is low, and the row lines are all low once the fifth pixel was sent |
| Driver.RowLevelsActive | tp-led-matrix/src/matrix.rs:171-192 | after `send_row`, LAT and row line `row` are high and SB and RST untouched; SCK is low for a non-empty row; for a row of at least 5 pixels, row line `row` is the only one high |
| Driver.FrameLevelsKeep | tp-led-matrix/src/matrix.rs:209-216 | displaying rows never changes SB or RST |
| Driver.FrameLevelsEnd | tp-led-matrix/src/matrix.rs:209-216 | after a whole image, row 7 is the only active row, LAT is high, SCK low, SDA holds bit 0 of pixel (7, 0)'s corrected red, SB and RST as before |
| Driver.Matrix.constructor | tp-led-matrix/src/matrix.rs:40-117 | the writes are: pins configured (SB, LAT high, the others low), RST raised, then bank 0 initialised; afterwards SB, LAT, RST and SDA are high, SCK and every row line low |
| Driver.Matrix.Configure | tp-led-matrix/src/matrix.rs:69-110 | each pin written in field order to its initial state: SB and LAT high, all others low |
| Driver.Matrix.SetPin | tp-led-matrix/src/matrix.rs:114 | one pin write: that pin reads back the level written, every other pin keeps its level, and the write is recorded |
| Driver.Matrix.PulseSck | tp-led-matrix/src/matrix.rs:120-125 | SCK written low, high, low; only SCK changes and it ends low |
| Driver.Matrix.PulseLat | tp-led-matrix/src/matrix.rs:127-132 | LAT written high, low, high; only LAT changes and it ends high |
| Driver.Matrix.SetRow | tp-led-matrix/src/matrix.rs:134-147 | row line `row < 8` is driven; the other lines keep their levels |
| Driver.Matrix.SendBit | tp-led-matrix/src/matrix.rs:153-154 | SDA set to the bit, then an SCK pulse |
| Driver.Matrix.SendByte | tp-led-matrix/src/matrix.rs:149-157 | the loop emits bits 7 down to 0, each as SDA then an SCK pulse, and leaves SDA at bit 0 with SCK low |
| Driver.Matrix.DeactivateRows | tp-led-matrix/src/matrix.rs:159-169 | the eight row lines written low in order, and all rows are off afterwards |
| Driver.Matrix.SendPixel | tp-led-matrix/src/matrix.rs:178-188 | the loop body for the `i`-th pixel from the end: corrected blue, the rows switched off when `i == 4`, then green and red |
| Driver.Matrix.SendPixels | tp-led-matrix/src/matrix.rs:178-188 | the loop sends the pixels last to first |
| Driver.Matrix.SendRow | tp-led-matrix/src/matrix.rs:171-192 | the writes are the pixels, a LAT pulse, and row `row` switched on |
| Driver.Matrix.Pulse | tp-led-matrix/src/matrix.rs:201-203 | `n` SCK pulses, SDA left as it was |
| Driver.Matrix.InitBank0 | tp-led-matrix/src/matrix.rs:194-207 | SB low, SDA high, 144 pulses, a LAT pulse, SB high; afterwards SB, SDA and LAT are high and SCK low |
| Driver.Matrix.DisplayImage | tp-led-matrix/src/matrix.rs:209-216 | the writes are rows 0 to 7 of the image, each as `send_row(i, image.row(i))` |
| Driver.Matrix.SendRows | tp-led-matrix/src/matrix.rs:213-215 | the loop sends rows `0 .. n` in order |
| Tasks.InitialState | tp-led-matrix/src/main.rs:111-121 | the starting state satisfies the invariant, with the cursor at 0 (bytes accepted before any sync byte), an empty mailbox and one free node |
| Tasks.AllocFailsWhenPending | tp-led-matrix/src/main.rs:112-119 | at most one node is free, and none exactly when a frame is pending, so a fourth allocation fails |
| Tasks.Complete | tp-led-matrix/src/main.rs:202-218 | `notice_change` is always queued; with a free node the received image becomes `next_image`, `rx_image` a zeroed image and one node fewer is free; with none, nothing else changes; in both cases the image on display, the row, the cursor, the counters and the screensaver's state are untouched |
| Tasks.Receive | tp-led-matrix/src/main.rs:175-222 | one interrupt keeps the invariant; the cursor is always in `0 .. 192` or `usize::MAX` |
| Tasks.ReceiveCases | tp-led-matrix/src/main.rs:179-220 | a read or line error changes nothing; `0xFF` only rewinds the cursor to 0; other bytes are ignored while the cursor is `usize::MAX`; otherwise the byte is stored at the cursor, which advances; the 192nd byte completes the frame and parks the cursor at `usize::MAX` |
| Tasks.PendingFrameDropped | tp-led-matrix/src/main.rs:204-216 | with a frame pending, completing another leaves the mailbox as it was and parks the cursor |
| Tasks.ReceiveAll | tp-led-matrix/src/main.rs:175-222 | the invariant holds after any sequence of bytes |
| Tasks.WrittenBytes | tp-led-matrix/src/main.rs:193-195 | writing bytes `0 .. k` in order makes them the first `k` bytes of the view and leaves the rest |
| Tasks.Filling | tp-led-matrix/src/main.rs:189-195 | after `0xFF` and `k < 192` other bytes, the cursor is `k` and `rx_image` holds those bytes at offsets `0 .. k` |
| Tasks.FrameReceived | tp-led-matrix/src/main.rs:189-220 | `0xFF` then 192 other bytes, with the mailbox empty, publishes the image whose byte view is exactly those bytes, zeroes `rx_image`, parks the cursor and queues `notice_change` |
| Tasks.DisplayStep | tp-led-matrix/src/main.rs:149-168 | one display step keeps the invariant and advances the row modulo 8 |
| Tasks.DisplayCases | tp-led-matrix/src/main.rs:156-168 | rows 0 to 6 only advance the row; after row 7 a pending image becomes current, the mailbox empties and the old node is freed; an empty mailbox keeps the current image |
| Tasks.DisplayRun | tp-led-matrix/src/main.rs:168 | the row number stays in `0 .. 8` over any number of steps |
| Tasks.WholeFrames | tp-led-matrix/src/main.rs:149-168 | eight steps from row 0 emit exactly `display_image`'s writes for the current image (no torn frame), then the pending image, if any, is current and the mailbox empty |
| Tasks.SaturatingInc | tp-led-matrix/src/main.rs:228-231 | the counter goes up by one below `u32::MAX` and stays at `u32::MAX` |
| Tasks.NoticeStep | tp-led-matrix/src/main.rs:224-232 | keeps the invariant; `changes` changes, by increasing, exactly when it was below `u32::MAX` |
| Tasks.TextColor | tp-led-matrix/src/main.rs:255-260 | colour indices 0, 1, 2 give red, green, blue |
| Tasks.Scroll | tp-led-matrix/src/main.rs:287-291 | the offset moves one column left, or wraps into `(OFFSET_MIN, 8]`; the colour index stays below 3 |
| Tasks.ScrollSteady | tp-led-matrix/src/main.rs:287-291 | before reaching the minimum the offset decreases by one per published image and the colour is kept |
| Tasks.ScrollLast | tp-led-matrix/src/main.rs:287-291 | the step that would take the offset down to the minimum wraps it to 8 and moves to the next colour |
| Tasks.ScrollPeriod | tp-led-matrix/src/main.rs:240-291 | the minimum is 400 columns below 8; 400 published images from offset 8 bring it back to 8 with the next colour |
| Tasks.ShowBanner | tp-led-matrix/src/main.rs:275-292 | publishing the banner keeps the invariant |
| Tasks.ScreensaverStep | tp-led-matrix/src/main.rs:234-300 | one screensaver step keeps the invariant |
| Tasks.ScreensaverCases | tp-led-matrix/src/main.rs:247-298 | after activity: offset 8, `last_changes` updated, 1 s delay; idle with an empty mailbox: the banner is published, the last free node taken, the text scrolls, nothing else changes, 60 ms delay; idle with a frame pending: the allocation fails and nothing changes |
| Tasks.RunTask | tp-led-matrix/src/main.rs:149-300 | any task run (a UART interrupt, `notice_change`, `screensaver`, `display`) keeps the invariant |
| Tasks.Schedule | tp-led-matrix/src/main.rs:149-300 | the invariant holds after any interleaving of task runs |
| Tasks.OtherTasksKeepDisplay | tp-led-matrix/src/main.rs:175-300 | `receive_byte`, `notice_change` and `screensaver` never change the image on display or the row `display` sends next |
| Tasks.InterleavedRows | tp-led-matrix/src/main.rs:149-300 | from row 0, whatever runs in between, the image on display stays until the eighth `display` run, and the row is the number of `display` runs so far |
| Tasks.InterleavedFrames | tp-led-matrix/src/main.rs:149-300 | no torn frames under any interleaving: from row 0, the first `k <= 8` `display` runs of any schedule send exactly rows 0 to `k - 1` of the image on display at the start, as `display_image` sends them |
| Tasks.DrawBanner | tp-led-matrix/src/main.rs:252-273 | drawing onto a fresh default image gives the drawing specification applied to the default image |
| Tasks.OwnedCount | tp-led-matrix/src/main.rs:112-119 | with every node owned once, the free nodes number 3 minus the images held |
| Tasks.OwnedInit | tp-led-matrix/src/main.rs:118-120 | the two allocations of `init` leave each node owned once |
| Tasks.OwnedPublish | tp-led-matrix/src/main.rs:211-215 | the swap of `receive_byte` keeps each node owned once |
| Tasks.OwnedSwap | tp-led-matrix/src/main.rs:157-162 | the swap of `display` keeps each node owned once |
| Tasks.OwnedBanner | tp-led-matrix/src/main.rs:275-285 | the screensaver's publish keeps each node owned once |
| Tasks.Pool.constructor | tp-led-matrix/src/main.rs:112-116 | a pool grown with three nodes, all free |
| Tasks.Pool.Alloc | tp-led-matrix/src/main.rs:211-213 | `None` exactly when no node is free; otherwise a free node is taken and initialised with the value |
| Tasks.Pool.WriteByte | tp-led-matrix/src/main.rs:193-194 | one byte of the node's byte view is written, and no other node changes |
| Tasks.Pool.Free | tp-led-matrix/src/main.rs:161 | the node returns to the free set |
| Tasks.App.constructor | tp-led-matrix/src/main.rs:111-121 | the resources equal the initial state and each node is owned once |
| Tasks.App.TakeNext | tp-led-matrix/src/main.rs:281-283 | the mailbox is emptied and its node, if any, freed |
| Tasks.App.CompleteFrame | tp-led-matrix/src/main.rs:202-218 | implements `Complete` on the pool and keeps each node owned once |
| Tasks.App.ReceiveByte | tp-led-matrix/src/main.rs:175-222 | implements `Receive` and keeps the invariant and the ownership |
| Tasks.App.Display | tp-led-matrix/src/main.rs:149-168 | implements `DisplayStep` and keeps the invariant; the driver receives exactly `send_row(next_row, current.row(next_row))` |
| Tasks.App.NextRow | tp-led-matrix/src/main.rs:156-168 | the swap after row 7 and the row advance, implementing `DisplayStep` |
| Tasks.App.NoticeChange | tp-led-matrix/src/main.rs:224-232 | implements `NoticeStep` and keeps the invariant |
| Tasks.App.Screensaver | tp-led-matrix/src/main.rs:234-300 | implements `ScreensaverStep`, including the returned delay, and keeps the invariant |
| Tasks.App.PublishBanner | tp-led-matrix/src/main.rs:275-292 | implements `ShowBanner`: allocation, eviction and freeing of a pending image, publication, scroll |

## Left out

- Hardware bring-up in `init` (clocks, GPIO, USART, the static pool memory, the first spawns) is not modelled. Only the pool capacity of three and the two initial allocations are. The `Matrix` is passed to `Tasks.App.constructor`.
- The pin-mode and speed configuration and the 100 ms delay of `Matrix::new` are left out. Only the pin levels they set are modelled.
- RTIC scheduling is left out: priorities, preemption, `lock`, and the timing of `spawn`/`spawn_at`. Each task body is one atomic step, and `Tasks.Schedule` interleaves whole task bodies only. In particular, `receive_byte` and `display` preempting `screensaver` between its allocation and its lock is not modelled.
- `display`'s re-arm period (1/480 s) is not modelled. The screensaver's delays are modelled only as the value `Tasks.App.Screensaver` returns.
- The `unwrap()` on `notice_change::spawn()` panics when a `notice_change` is already queued. The model only records the queued flag and does not model the panic.
- The UART `read` and `check_for_error` are inputs of `Tasks.App.ReceiveByte`. The `else` branch at `tp-led-matrix/src/main.rs:196-198` cannot be reached, since `rx_image` always holds an image, and is not modelled.
- `defmt` logging and the `idle` loop are left out.
- `gamma.rs` is not part of this model. The gamma table is a parameter of `Driver.Matrix` and nothing is assumed about its values.
- The floating-point `Mul<f32>`, `Div<f32>` and `Image::gradient` are left out. `range_dealer` is modelled on its natural-number input.
- Text rendering (font, text style, `Text::draw`) is a parameter of `Tasks.App.Screensaver`: a function from colour and offset to the pixels drawn.
- The pool hands out an arbitrary free node; `heapless`'s LIFO order is not modelled. Pool nodes hold images as values: an in-place write to a node is the node's value replaced.
- `changes` is read under its lock in `screensaver`. Here it is read in the same atomic step as the rest of the body.
- `Driver.Matrix.SendByte`: the signed `counter` counting down to -1 is modelled as a `for … downto` loop over 7 to 0.
- `Graphics.DrawIter`: the `Ok(())` result is not modelled. The error type is `Infallible`, so it carries nothing.
- `Driver.Matrix.constructor`: leaves SDA high, not low as `Matrix::new`'s documentation suggests, because `init_bank0` drives SDA high and never lowers it.
