/** The firmware's tasks: serial reception of frames, the display refresh, the activity counter and the
    screensaver, over the three-image pool and the `next_image` mailbox they share. Each task body is one
    atomic step over explicit state. */
module Tasks {
  import opened Frame
  import opened Graphics
  import opened Driver

  datatype Option<T> = None | Some(value: T)

  /** `usize` on the 32-bit target. */
  const USIZE_MAX: nat := 0xFFFF_FFFF
  const U32_MAX: nat := 0xFFFF_FFFF

  /** The byte that resynchronises the serial framing. */
  const SYNC: Byte := 0xFF

  /** The text the screensaver scrolls, 49 characters. */
  const TEXT: string := "This Rust SE202 project will get me a good grade?"
  /** The screensaver's offset is reset to `OFFSET_MAX`, and wraps back to it on reaching `OFFSET_MIN`:
      eight columns for each character of the text. */
  const OFFSET_MAX: int := 8
  const OFFSET_MIN: int := -1 * OFFSET_MAX * |TEXT|
  /** The screensaver's first offset. */
  const OFFSET_INIT: int := 10

  /** The screensaver's re-arm delays: while idle, and after a received frame. */
  const SCROLL_DELAY_MS: nat := 60
  const WAKE_DELAY_MS: nat := 1000

  // ---------------------------------------------------------------------------------------------
  // The state of the application, with the images held by value and the pool reduced to its number
  // of free nodes

  datatype AppState = AppState(
    current: Image,          // `current_image`, the image on display
    rx: Image,               // `rx_image`, the image being received
    next: Option<Image>,     // `next_image`, the mailbox
    freeSlots: nat,          // free nodes of the pool
    nextRow: nat,            // `display`'s `next_row`
    nextPos: nat,            // `receive_byte`'s `next_pos`
    changes: nat,            // the shared `changes` counter (`u32`)
    noticeQueued: bool,      // a `notice_change` is spawned and has not run yet
    lastChanges: nat,        // the screensaver's `last_changes` (`u32`)
    colorIndex: nat,         // the screensaver's `color_index`
    offset: int)             // the screensaver's `offset` (`i32`)

  /** What holds between task steps: the three pool nodes are the current image, the image being
      received, the pending image if any, and the free ones; the counters and cursors are in range. */
  ghost predicate Inv(a: AppState)
  {
    a.freeSlots + 2 + (if a.next.Some? then 1 else 0) == 3 &&
    a.nextRow < 8 &&
    (a.nextPos < FRAME_BYTES || a.nextPos == USIZE_MAX) &&
    a.changes <= U32_MAX && a.lastChanges <= U32_MAX &&
    a.colorIndex < 3 &&
    OFFSET_MIN < a.offset <= OFFSET_INIT
  }

  /** The state once `init` has returned: two default images allocated from the three-node pool, the
      mailbox empty, and every task local at its declared initial value. */
  function InitialState(): (a: AppState)
    ensures Inv(a)
    ensures a.nextPos == 0 && a.next == None && a.freeSlots == 1
  {
    AppState(DefaultImage(), DefaultImage(), None, 3 - 2, 0, 0, 0, false, 0, 0, OFFSET_INIT)
  }

  /** With a frame pending every node is taken, so an allocation fails: the pool never has room for a
      fourth image. */
  lemma AllocFailsWhenPending(a: AppState)
    requires Inv(a)
    ensures a.freeSlots == 0 <==> a.next.Some?
    ensures a.freeSlots <= 1
  {
  }

  // ---------------------------------------------------------------------------------------------
  // `receive_byte`

  /** The body of the lock in `receive_byte` once a whole frame is in: the pending image is meant to be
      freed first, but the test `is_none() != false` only lets an EMPTY mailbox through, so nothing is ever
      freed; then, if a node can be allocated, it is zeroed and swapped with `rx_image`, the received
      image becoming `next_image`; in both cases `notice_change` is spawned. */
  function Complete(a: AppState): (r: AppState)
    ensures r.noticeQueued
    ensures a.freeSlots > 0 ==> r.next == Some(a.rx) && r.rx == DefaultImage() && r.freeSlots == a.freeSlots - 1
    ensures a.freeSlots == 0 ==> r == a.(noticeQueued := true)
    // only the mailbox, `rx_image`, the pool and the spawn flag move: the image on display, the cursors,
    // the counters and the screensaver's state are untouched
    ensures r.(next := a.next, rx := a.rx, freeSlots := a.freeSlots, noticeQueued := a.noticeQueued) == a
  {
    var published :=
      if a.freeSlots > 0 then a.(freeSlots := a.freeSlots - 1, next := Some(a.rx), rx := DefaultImage())
      else a;
    published.(noticeQueued := true)
  }

  /** One `receive_byte` interrupt. `read` is what the UART read returned (`None` when it failed) and
      `lineError` what `check_for_error` reported. */
  function Receive(a: AppState, read: Option<Byte>, lineError: bool): (r: AppState)
    requires a.nextPos < FRAME_BYTES || a.nextPos == USIZE_MAX
    ensures Inv(a) ==> Inv(r)
    ensures r.nextPos < FRAME_BYTES || r.nextPos == USIZE_MAX
  {
    if read.None? || lineError then a
    else
      var b := read.value;
      var stored :=
        if b == SYNC then a.(nextPos := 0)
        else if a.nextPos == USIZE_MAX then a
        else a.(rx := WithByte(a.rx, a.nextPos, b), nextPos := a.nextPos + 1);
      if stored.nextPos == FRAME_BYTES then Complete(stored).(nextPos := USIZE_MAX) else stored
  }

  /** The cases of `receive_byte`, one by one. */
  lemma ReceiveCases(a: AppState, b: Byte)
    requires Inv(a)
    // a failed read, or a byte with a line error, changes nothing
    ensures Receive(a, None, false) == a && Receive(a, None, true) == a && Receive(a, Some(b), true) == a
    // the sync byte only rewinds the cursor; it is not stored
    ensures b == SYNC ==> Receive(a, Some(b), false) == a.(nextPos := 0)
    // after a complete frame, other bytes are ignored until the next sync byte
    ensures b != SYNC && a.nextPos == USIZE_MAX ==> Receive(a, Some(b), false) == a
    // while a frame is being received, each byte is stored at the cursor, which advances
    ensures b != SYNC && a.nextPos < FRAME_BYTES - 1 ==>
              Receive(a, Some(b), false) == a.(rx := WithByte(a.rx, a.nextPos, b), nextPos := a.nextPos + 1)
    // the last byte completes the frame: published if a node was free, and the cursor parked
    ensures b != SYNC && a.nextPos == FRAME_BYTES - 1 ==>
              Receive(a, Some(b), false) == Complete(a.(rx := WithByte(a.rx, a.nextPos, b))).(nextPos := USIZE_MAX)
  {
  }

  /** The frame cannot be published while another is pending: every node is in use, the allocation fails
      and the mailbox keeps the older image; the new one stays in `rx_image` until it is overwritten. */
  lemma PendingFrameDropped(a: AppState, b: Byte)
    requires Inv(a) && a.next.Some? && a.nextPos == FRAME_BYTES - 1 && b != SYNC
    ensures Receive(a, Some(b), false).next == a.next
    ensures Receive(a, Some(b), false).rx == WithByte(a.rx, FRAME_BYTES - 1, b)
    ensures Receive(a, Some(b), false).nextPos == USIZE_MAX
  {
  }

  /** `receive_byte` for each byte of `bytes` in turn, without read or line errors. */
  function ReceiveAll(a: AppState, bytes: seq<Byte>): (r: AppState)
    requires Inv(a)
    ensures Inv(r)
    decreases |bytes|
  {
    if bytes == [] then a else Receive(ReceiveAll(a, bytes[..|bytes| - 1]), Some(bytes[|bytes| - 1]), false)
  }

  /** Receiving one more byte. */
  lemma ReceiveAllSnoc(a: AppState, bytes: seq<Byte>, b: Byte)
    requires Inv(a)
    ensures ReceiveAll(a, bytes + [b]) == Receive(ReceiveAll(a, bytes), Some(b), false)
  {
    assert (bytes + [b])[..|bytes|] == bytes;
  }

  /** The image after writing `bytes[..k]` at byte offsets `0 .. k` of `img`. */
  function Written(img: Image, bytes: seq<Byte>, k: nat): Image
    requires k <= |bytes| && k <= FRAME_BYTES
  {
    if k == 0 then img else WithByte(Written(img, bytes, k - 1), k - 1, bytes[k - 1])
  }

  lemma {:induction false} WrittenBytes(img: Image, bytes: seq<Byte>, k: nat)
    requires k <= |bytes| && k <= FRAME_BYTES
    ensures AsBytes(Written(img, bytes, k)) == bytes[..k] + AsBytes(img)[k..]
  {
    if k > 0 {
      WrittenBytes(img, bytes, k - 1);
      var before := Written(img, bytes, k - 1);
      ByteViewWrite(before, k - 1, bytes[k - 1]);
      assert bytes[..k] == bytes[..k - 1] + [bytes[k - 1]];
    }
  }

  /** The sync byte alone rewinds the cursor and stores nothing. */
  lemma SyncAlone(a: AppState)
    requires Inv(a)
    ensures ReceiveAll(a, [SYNC]) == a.(nextPos := 0)
  {
    assert [SYNC] == [] + [SYNC];
    ReceiveAllSnoc(a, [], SYNC);
  }

  /** A byte other than the sync byte, received before the last offset, is stored at the cursor. */
  lemma StoreByte(a: AppState, prefix: seq<Byte>, b: Byte)
    requires Inv(a) && ReceiveAll(a, prefix).nextPos < FRAME_BYTES - 1 && b != SYNC
    ensures var before := ReceiveAll(a, prefix);
            ReceiveAll(a, prefix + [b]) == before.(rx := WithByte(before.rx, before.nextPos, b), nextPos := before.nextPos + 1)
  {
    ReceiveAllSnoc(a, prefix, b);
  }

  /** The first step of `Filling`: nothing is written yet after the sync byte. */
  lemma FillingStart(a: AppState, bytes: seq<Byte>)
    requires Inv(a)
    ensures ReceiveAll(a, [SYNC] + bytes[..0]) == a.(nextPos := 0, rx := Written(a.rx, bytes, 0))
  {
    assert [SYNC] + bytes[..0] == [SYNC];
    SyncAlone(a);
  }

  /** The step of `Filling`: once `k - 1` bytes are written, byte `k - 1` goes to offset `k - 1`. */
  lemma FillingNext(a: AppState, bytes: seq<Byte>, k: nat)
    requires Inv(a) && |bytes| == FRAME_BYTES && 0 < k < FRAME_BYTES && bytes[k - 1] != SYNC
    requires ReceiveAll(a, [SYNC] + bytes[..k - 1]) == a.(nextPos := k - 1, rx := Written(a.rx, bytes, k - 1))
    ensures ReceiveAll(a, [SYNC] + bytes[..k]) == a.(nextPos := k, rx := Written(a.rx, bytes, k))
  {
    var prefix := [SYNC] + bytes[..k - 1];
    assert [SYNC] + bytes[..k] == prefix + [bytes[k - 1]];
    StoreByte(a, prefix, bytes[k - 1]);
  }

  /** While a frame is coming in, the `k` bytes after the sync byte are written in order at offsets
      `0 .. k`. */
  lemma {:induction false} Filling(a: AppState, bytes: seq<Byte>, k: nat)
    requires Inv(a) && |bytes| == FRAME_BYTES && k < FRAME_BYTES
    requires forall i :: 0 <= i < |bytes| ==> bytes[i] != SYNC
    ensures ReceiveAll(a, [SYNC] + bytes[..k]) == a.(nextPos := k, rx := Written(a.rx, bytes, k))
  {
    if k == 0 {
      FillingStart(a, bytes);
    } else {
      Filling(a, bytes, k - 1);
      FillingNext(a, bytes, k);
    }
  }

  /** End to end: a sync byte followed by 192 other bytes, with the mailbox empty, publishes the image
      whose byte view is exactly those bytes, leaves a zeroed `rx_image` and parks the cursor. */
  lemma FrameReceived(a: AppState, bytes: seq<Byte>)
    requires Inv(a) && a.next == None && |bytes| == FRAME_BYTES
    requires forall i :: 0 <= i < |bytes| ==> bytes[i] != SYNC
    ensures ReceiveAll(a, [SYNC] + bytes).next == Some(FromBytes(bytes))
    ensures AsBytes(ReceiveAll(a, [SYNC] + bytes).next.value) == bytes
    ensures ReceiveAll(a, [SYNC] + bytes).rx == DefaultImage()
    ensures ReceiveAll(a, [SYNC] + bytes).nextPos == USIZE_MAX
    ensures ReceiveAll(a, [SYNC] + bytes).noticeQueued
  {
    var input := [SYNC] + bytes;
    Filling(a, bytes, FRAME_BYTES - 1);
    assert input[..|input| - 1] == [SYNC] + bytes[..FRAME_BYTES - 1];
    var image := Written(a.rx, bytes, FRAME_BYTES);
    WrittenBytes(a.rx, bytes, FRAME_BYTES);
    assert AsBytes(image) == bytes;
    FromAsBytes(image);
    AsFromBytes(bytes);
  }

  // ---------------------------------------------------------------------------------------------
  // `display`

  /** One `display` step: row `next_row` of the current image is sent; after row 7 a pending image
      replaces the current one, whose node is freed; the row number advances modulo 8. */
  function DisplayStep(a: AppState): (r: AppState)
    ensures Inv(a) ==> Inv(r)
    ensures r.nextRow == (a.nextRow + 1) % 8
  {
    var swapped :=
      if a.nextRow == 7 && a.next.Some? then a.(current := a.next.value, next := None, freeSlots := a.freeSlots + 1)
      else a;
    swapped.(nextRow := (a.nextRow + 1) % 8)
  }

  /** The cases of `display`. */
  lemma DisplayCases(a: AppState)
    requires Inv(a)
    // rows 0 to 6 only advance the row
    ensures a.nextRow < 7 ==> DisplayStep(a) == a.(nextRow := a.nextRow + 1)
    // after row 7 a pending image becomes current, its node leaving the mailbox and the old one freed
    ensures a.nextRow == 7 && a.next.Some? ==>
              DisplayStep(a) == a.(current := a.next.value, next := None, freeSlots := a.freeSlots + 1, nextRow := 0)
    // an empty mailbox leaves the current image on display
    ensures a.nextRow == 7 && a.next.None? ==> DisplayStep(a) == a.(nextRow := 0)
  {
  }

  /** The state after `n` display steps. */
  function DisplayRun(a: AppState, n: nat): (r: AppState)
    requires a.nextRow < 8
    ensures r.nextRow < 8
  {
    if n == 0 then a else DisplayStep(DisplayRun(a, n - 1))
  }

  /** The pin writes of `n` display steps. */
  function DisplayTrace(a: AppState, n: nat, gamma: Byte -> Byte): seq<Event>
    requires a.nextRow < 8
  {
    if n == 0 then []
    else
      var s := DisplayRun(a, n - 1);
      DisplayTrace(a, n - 1, gamma) + RowTrace(s.nextRow, Row(s.current, s.nextRow), gamma)
  }

  /** Up to row 7 a display step only advances the row. */
  lemma {:induction false} DisplayRunRows(a: AppState, k: nat)
    requires a.nextRow == 0 && k < 8
    ensures DisplayRun(a, k) == a.(nextRow := k)
  {
    if k > 0 {
      DisplayRunRows(a, k - 1);
    }
  }

  /** Images are never torn: eight display steps from row 0 send exactly the frame `display_image` sends
      for the current image; only then is a pending image swapped in. */
  lemma WholeFrames(a: AppState, gamma: Byte -> Byte)
    requires a.nextRow == 0
    ensures DisplayTrace(a, ROWS, gamma) == FrameTrace(a.current, ROWS, gamma)
    ensures DisplayRun(a, ROWS).nextRow == 0
    ensures DisplayRun(a, ROWS).current == if a.next.Some? then a.next.value else a.current
    ensures DisplayRun(a, ROWS).next == None
  {
    FramePrefix(a, ROWS, gamma);
    FrameSwap(a);
  }

  /** Only the eighth step swaps the images. */
  lemma FrameSwap(a: AppState)
    requires a.nextRow == 0
    ensures DisplayRun(a, ROWS).nextRow == 0
    ensures DisplayRun(a, ROWS).current == if a.next.Some? then a.next.value else a.current
    ensures DisplayRun(a, ROWS).next == None
  {
    DisplayRunRows(a, ROWS - 1);
  }

  lemma {:induction false} FramePrefix(a: AppState, k: nat, gamma: Byte -> Byte)
    requires a.nextRow == 0 && k <= 8
    ensures DisplayTrace(a, k, gamma) == FrameTrace(a.current, k, gamma)
  {
    if k > 0 {
      FramePrefix(a, k - 1, gamma);
      DisplayRunRows(a, k - 1);
    }
  }

  // ---------------------------------------------------------------------------------------------
  // `notice_change`

  /** `checked_add(changes, 1)`, the sum kept only when it does not overflow. */
  function SaturatingInc(x: nat): (y: nat)
    requires x <= U32_MAX
    ensures y <= U32_MAX
    ensures x < U32_MAX ==> y == x + 1
    ensures x == U32_MAX ==> y == x
  {
    if x + 1 <= U32_MAX then x + 1 else x
  }

  /** One `notice_change` step. */
  function NoticeStep(a: AppState): (r: AppState)
    requires a.changes <= U32_MAX
    ensures Inv(a) ==> Inv(r)
    ensures r.changes >= a.changes && r.changes != a.changes <==> a.changes < U32_MAX
  {
    a.(changes := SaturatingInc(a.changes), noticeQueued := false)
  }

  // ---------------------------------------------------------------------------------------------
  // `screensaver`

  /** The text colour for `color_index`; any other index is unreachable in the source. */
  function TextColor(i: nat): (c: Rgb888)
    requires i < 3
    ensures ColorFrom(c) == if i == 0 then RED else if i == 1 then GREEN else BLUE
  {
    if i == 0 then Rgb888(255, 0, 0) else if i == 1 then Rgb888(0, 255, 0) else Rgb888(0, 0, 255)
  }

  /** The scroll after a published image: one column left, wrapping to `OFFSET_MAX` with the next colour
      on reaching `OFFSET_MIN`. */
  function Scroll(offset: int, colorIndex: nat): (r: (int, nat))
    requires OFFSET_MIN < offset && colorIndex < 3
    ensures OFFSET_MIN < r.0 <= OFFSET_MAX || r.0 == offset - 1
    ensures r.1 < 3
  {
    if offset - 1 == OFFSET_MIN then (OFFSET_MAX, (colorIndex + 1) % 3) else (offset - 1, colorIndex)
  }

  /** `n` scrolls in a row. */
  function ScrollN(offset: int, colorIndex: nat, n: nat): (int, nat)
    decreases n
    requires OFFSET_MIN < offset <= OFFSET_INIT && colorIndex < 3
  {
    if n == 0 then (offset, colorIndex)
    else
      var s := Scroll(offset, colorIndex);
      ScrollN(s.0, s.1, n - 1)
  }

  /** Before reaching `OFFSET_MIN` the text moves one column per image. */
  lemma {:induction false} ScrollSteady(offset: int, colorIndex: nat, n: nat)
    decreases n
    requires OFFSET_MIN < offset <= OFFSET_INIT && colorIndex < 3 && n < offset - OFFSET_MIN
    ensures ScrollN(offset, colorIndex, n) == (offset - n, colorIndex)
  {
    if n > 0 {
      ScrollSteady(offset - 1, colorIndex, n - 1);
    }
  }

  /** From a reset, the text needs 400 images (eight per character plus one screen width) to scroll out,
      then starts again at `OFFSET_MAX` in the next colour. */
  lemma ScrollPeriod(colorIndex: nat)
    requires colorIndex < 3
    ensures OFFSET_MAX - OFFSET_MIN == 400
    ensures ScrollN(OFFSET_MAX, colorIndex, 400) == (OFFSET_MAX, (colorIndex + 1) % 3)
  {
    ScrollSteady(OFFSET_MAX, colorIndex, 399);
    assert ScrollN(OFFSET_MAX, colorIndex, 399) == (OFFSET_MIN + 1, colorIndex);
    ScrollLast(OFFSET_MAX, colorIndex, 399);
  }

  lemma {:induction false} ScrollLast(offset: int, colorIndex: nat, n: nat)
    decreases n
    requires OFFSET_MIN < offset <= OFFSET_INIT && colorIndex < 3 && n + 1 == offset - OFFSET_MIN
    ensures ScrollN(offset, colorIndex, n + 1) == (OFFSET_MAX, (colorIndex + 1) % 3)
  {
    if n > 0 {
      ScrollLast(offset - 1, colorIndex, n - 1);
    }
  }

  /** The pixels the text renderer draws for a colour and an offset. The font and the text layout are
      foreign code: this is a parameter of the model. */
  type Renderer = (Rgb888, int) -> seq<Pixel>

  /** The image the screensaver would publish: the rendered text drawn onto a default image. */
  function Banner(a: AppState, render: Renderer): Image
    requires a.colorIndex < 3
  {
    DrawAll(DefaultImage(), render(TextColor(a.colorIndex), a.offset))
  }

  /** The publishing half of `screensaver`: if a node can be allocated it takes `banner`, a pending
      image is freed and replaced, and the text scrolls; otherwise nothing changes. */
  function ShowBanner(a: AppState, banner: Image): (r: AppState)
    requires Inv(a)
    ensures Inv(r)
  {
    if a.freeSlots > 0 then
      var evicted := if a.next.Some? then 1 else 0;
      var s := Scroll(a.offset, a.colorIndex);
      a.(freeSlots := a.freeSlots - 1 + evicted, next := Some(banner), offset := s.0, colorIndex := s.1)
    else a
  }

  /** One `screensaver` step and the delay before the next one. */
  function ScreensaverStep(a: AppState, render: Renderer): (r: (AppState, nat))
    requires Inv(a)
    ensures Inv(r.0)
  {
    if a.lastChanges == a.changes then (ShowBanner(a, Banner(a, render)), SCROLL_DELAY_MS)
    else (a.(offset := OFFSET_MAX, lastChanges := a.changes), WAKE_DELAY_MS)
  }

  /** The cases of `screensaver`. */
  lemma ScreensaverCases(a: AppState, render: Renderer)
    requires Inv(a)
    // after activity it only records the counter and waits a second
    ensures a.lastChanges != a.changes ==>
              ScreensaverStep(a, render) == (a.(offset := OFFSET_MAX, lastChanges := a.changes), WAKE_DELAY_MS)
    // when idle and a node is free, the banner is published and the text scrolls
    // (the last free node is taken, and nothing else moves), with a 60 ms delay
    ensures a.lastChanges == a.changes && a.next == None ==>
              var s := Scroll(a.offset, a.colorIndex);
              ScreensaverStep(a, render)
              == (a.(freeSlots := 0, next := Some(Banner(a, render)), offset := s.0, colorIndex := s.1), SCROLL_DELAY_MS)
    // when idle with a frame pending, the allocation fails and nothing moves
    ensures a.lastChanges == a.changes && a.next.Some? ==> ScreensaverStep(a, render) == (a, SCROLL_DELAY_MS)
  {
  }

  // ---------------------------------------------------------------------------------------------
  // The tasks interleaved

  /** One task run as the scheduler dispatches it: a UART interrupt, `notice_change`, `screensaver` or
      `display`. */
  datatype TaskRun = RxByte(read: Option<Byte>, lineError: bool) | Notice | Saver(render: Renderer) | Refresh

  /** The state after one task run. */
  function RunTask(a: AppState, t: TaskRun): (r: AppState)
    requires Inv(a)
    ensures Inv(r)
  {
    match t
    case RxByte(read, lineError) => Receive(a, read, lineError)
    case Notice => NoticeStep(a)
    case Saver(render) => ScreensaverStep(a, render).0
    case Refresh => DisplayStep(a)
  }

  /** The state after a schedule of task runs, first run first. */
  function Schedule(a: AppState, runs: seq<TaskRun>): (r: AppState)
    requires Inv(a)
    ensures Inv(r)
    decreases |runs|
  {
    if runs == [] then a else RunTask(Schedule(a, runs[..|runs| - 1]), runs[|runs| - 1])
  }

  /** The pin writes of one task run: only `display` drives the matrix, one row per run. */
  function RunTrace(a: AppState, t: TaskRun, gamma: Byte -> Byte): seq<Event>
    requires a.nextRow < 8
  {
    if t.Refresh? then RowTrace(a.nextRow, Row(a.current, a.nextRow), gamma) else []
  }

  /** The pin writes of a schedule. */
  function ScheduleTrace(a: AppState, runs: seq<TaskRun>, gamma: Byte -> Byte): seq<Event>
    requires Inv(a)
    decreases |runs|
  {
    if runs == [] then []
    else ScheduleTrace(a, runs[..|runs| - 1], gamma) + RunTrace(Schedule(a, runs[..|runs| - 1]), runs[|runs| - 1], gamma)
  }

  /** The number of `display` runs in a schedule. */
  function Refreshes(runs: seq<TaskRun>): nat
    decreases |runs|
  {
    if runs == [] then 0 else Refreshes(runs[..|runs| - 1]) + if runs[|runs| - 1].Refresh? then 1 else 0
  }

  /** Only `display` moves the image on display or the row it sends next. */
  lemma OtherTasksKeepDisplay(a: AppState, t: TaskRun)
    requires Inv(a) && !t.Refresh?
    ensures RunTask(a, t).current == a.current && RunTask(a, t).nextRow == a.nextRow
  {
  }

  /** A schedule extended by one more run: its `display` runs, ... */
  lemma RunCount(runs: seq<TaskRun>)
    requires runs != []
    ensures Refreshes(runs) == Refreshes(runs[..|runs| - 1]) + if runs[|runs| - 1].Refresh? then 1 else 0
  {
  }

  /** ... its state, ... */
  lemma RunState(a: AppState, runs: seq<TaskRun>)
    requires Inv(a) && runs != []
    ensures Schedule(a, runs) == RunTask(Schedule(a, runs[..|runs| - 1]), runs[|runs| - 1])
  {
  }

  /** ... and its pin writes. */
  lemma RunWrites(a: AppState, runs: seq<TaskRun>, gamma: Byte -> Byte)
    requires Inv(a) && runs != []
    ensures ScheduleTrace(a, runs, gamma)
         == ScheduleTrace(a, runs[..|runs| - 1], gamma) + RunTrace(Schedule(a, runs[..|runs| - 1]), runs[|runs| - 1], gamma)
  {
  }

  /** A `display` run on row `k` of `img` sends that row, completing rows 0 to `k`. */
  lemma RefreshSends(img: Image, s: AppState, k: nat, gamma: Byte -> Byte)
    requires s.current == img && s.nextRow == k && k < 8
    ensures FrameTrace(img, k, gamma) + RunTrace(s, Refresh, gamma) == FrameTrace(img, k + 1, gamma)
  {
    var row := RowTrace(k, Row(img, k), gamma);
    assert RunTrace(s, Refresh, gamma) == row;
    FrameTraceStep([], img, k, gamma);
    assert [] + FrameTrace(img, k, gamma) + row == FrameTrace(img, k, gamma) + row;
  }

  /** Any other run sends nothing to the matrix. */
  lemma OtherSendsNothing(s: AppState, t: TaskRun, gamma: Byte -> Byte)
    requires s.nextRow < 8 && !t.Refresh?
    ensures RunTrace(s, t, gamma) == []
  {
  }

  /** From row 0, until the eighth `display` run of a schedule the image on display stays, and the row is
      the number of `display` runs so far. */
  lemma {:induction false} InterleavedRows(a: AppState, runs: seq<TaskRun>)
    requires Inv(a) && a.nextRow == 0 && Refreshes(runs) < 8
    ensures Schedule(a, runs).current == a.current && Schedule(a, runs).nextRow == Refreshes(runs)
    decreases |runs|
  {
    if runs != [] {
      var pre := runs[..|runs| - 1];
      var t := runs[|runs| - 1];
      var s := Schedule(a, pre);
      RunCount(runs);
      RunState(a, runs);
      InterleavedRows(a, pre);
      if t.Refresh? {
        DisplayCases(s);
      } else {
        OtherTasksKeepDisplay(s, t);
      }
    }
  }

  /** Images are never torn, whatever runs in between: from row 0, the first `k <= 8` display runs of any
      schedule send rows 0 to `k - 1` of the image on display at the start, exactly as `display_image`
      would. */
  lemma {:induction false} InterleavedFrames(a: AppState, runs: seq<TaskRun>, gamma: Byte -> Byte)
    requires Inv(a) && a.nextRow == 0 && Refreshes(runs) <= 8
    ensures ScheduleTrace(a, runs, gamma) == FrameTrace(a.current, Refreshes(runs), gamma)
    decreases |runs|
  {
    if runs == [] {
      assert ScheduleTrace(a, runs, gamma) == [] && FrameTrace(a.current, 0, gamma) == [];
    } else {
      var pre := runs[..|runs| - 1];
      var t := runs[|runs| - 1];
      var s := Schedule(a, pre);
      RunCount(runs);
      RunWrites(a, runs, gamma);
      InterleavedFrames(a, pre, gamma);
      if t.Refresh? {
        InterleavedRows(a, pre);
        RefreshSends(a.current, s, Refreshes(pre), gamma);
      } else {
        OtherSendsNothing(s, t, gamma);
      }
    }
  }

  // ---------------------------------------------------------------------------------------------
  // The image pool and the application's resources

  /** `text.draw(&mut image_aux)` on a fresh default image, for the pixels the renderer produces. */
  method DrawBanner(pixels: seq<Pixel>) returns (banner: Image)
    ensures banner == DrawAll(DefaultImage(), pixels)
  {
    var imageAux := new Color[64](_ => BLACK);
    assert imageAux[..] == DefaultImage();
    DrawIter(imageAux, pixels);
    banner := imageAux[..];
  }

  /** A node of the three-node pool. */
  type Slot = s: nat | s < 3

  const ALL_SLOTS: set<Slot> := {0, 1, 2}

  /** Every node is in exactly one place: the free list, the current image, the image being received
      or the mailbox. */
  predicate Owned(free: set<Slot>, current: Slot, rx: Slot, next: Option<Slot>)
  {
    current != rx && (next.Some? ==> next.value != current && next.value != rx) &&
    forall s: Slot :: s in free <==> s != current && s != rx && next != Some(s)
  }

  /** The free count follows from the ownership: the one node nobody holds, or none. */
  lemma OwnedCount(free: set<Slot>, current: Slot, rx: Slot, next: Option<Slot>)
    requires Owned(free, current, rx, next)
    ensures |free| + 2 + (if next.Some? then 1 else 0) == 3
  {
    if next.None? {
      var third: Slot := 3 - current - rx;
      assert free == {third};
    } else {
      assert free == {};
    }
  }

  /** `init`: two nodes allocated in turn from the three. */
  lemma OwnedInit(current: Slot, rx: Slot)
    requires current in ALL_SLOTS && rx in ALL_SLOTS - {current}
    ensures Owned(ALL_SLOTS - {current} - {rx}, current, rx, None)
  {
  }

  /** `receive_byte`: the allocated node becomes `rx_image`, the received image goes to the mailbox. */
  lemma OwnedPublish(free: set<Slot>, current: Slot, rx: Slot, f: Slot)
    requires Owned(free, current, rx, None) && f in free
    ensures Owned(free - {f}, current, f, Some(rx))
  {
  }

  /** `display`: the pending node becomes current and the old current node is freed. */
  lemma OwnedSwap(free: set<Slot>, current: Slot, rx: Slot, n: Slot)
    requires Owned(free, current, rx, Some(n))
    ensures Owned(free + {current}, n, rx, None)
  {
  }

  /** `screensaver`: the allocated node goes to the mailbox, whose previous node is freed. */
  lemma OwnedBanner(free: set<Slot>, current: Slot, rx: Slot, next: Option<Slot>, f: Slot)
    requires Owned(free, current, rx, next) && f in free
    ensures Owned(free - {f} + (if next.Some? then {next.value} else {}), current, rx, Some(f))
  {
  }

  /** The storage of the three nodes. */
  type Nodes = s: seq<Image> | |s| == 3 witness [DefaultImage(), DefaultImage(), DefaultImage()]

  /** `heapless::pool::Pool<Image>` grown with three nodes: the contents of the nodes and the free
      nodes. */
  class Pool {
    var memory: Nodes
    var free: set<Slot>

    /** `Pool::new` followed by `grow_exact` on three nodes: all of them free. */
    constructor ()
      ensures free == ALL_SLOTS
    {
      memory := [DefaultImage(), DefaultImage(), DefaultImage()];
      free := ALL_SLOTS;
    }

    /** `alloc()` then `init(value)`: a free node, if any, taken and written with `value`. */
    method Alloc(value: Image) returns (h: Option<Slot>)
      modifies this
      ensures h.None? <==> old(free) == {}
      ensures h.None? ==> free == old(free) && memory == old(memory)
      ensures h.Some? ==> h.value in old(free) && free == old(free) - {h.value}
      ensures h.Some? ==> memory == old(memory)[h.value := value]
    {
      if free == {} {
        h := None;
      } else {
        var s :| s in free;
        free := free - {s};
        memory := memory[s := value];
        h := Some(s);
      }
    }

    /** `image.as_mut()[k] = v` on the image in node `h`. */
    method WriteByte(h: Slot, k: nat, v: Byte)
      requires k < FRAME_BYTES
      modifies `memory
      ensures memory == old(memory)[h := WithByte(old(memory)[h], k, v)]
    {
      memory := memory[h := WithByte(memory[h], k, v)];
    }

    /** `free(box)`: the node is returned to the pool. */
    method Free(h: Slot)
      requires h !in free
      modifies `free
      ensures free == old(free) + {h}
    {
      free := free + {h};
    }
  }

  /** The RTIC resources: the shared `next_image`, `pool` and `changes`, and the locals of the four
      tasks; the images are pool nodes, named by their `Slot`. */
  class App {
    const pool: Pool
    const matrix: Matrix
    var nextImage: Option<Slot>
    var changes: nat
    var currentImage: Slot
    var nextRow: nat
    var rxImage: Slot
    var nextPos: nat
    var noticeQueued: bool
    var lastChanges: nat
    var colorIndex: nat
    var offset: int

    /** The nodes are owned exactly once each: by the current image, the image being received, the
        mailbox, or the pool's free list. */
    ghost predicate Linked()
      reads this, pool
    {
      Owned(pool.free, currentImage, rxImage, nextImage)
    }

    /** The resources as values. */
    ghost function State(): AppState
      reads this, pool
    {
      AppState(pool.memory[currentImage], pool.memory[rxImage],
               if nextImage.Some? then Some(pool.memory[nextImage.value]) else None,
               |pool.free|, nextRow, nextPos, changes, noticeQueued, lastChanges, colorIndex, offset)
    }

    ghost predicate Valid()
      reads this, pool
    {
      Linked() && Inv(State())
    }

    /** The end of `init`: a three-node pool, two default images allocated from it (current and
        received), an empty mailbox, and every task local at its initial value. */
    constructor (matrix: Matrix)
      ensures this.matrix == matrix && fresh(pool)
      ensures Valid() && State() == InitialState()
    {
      this.matrix := matrix;
      pool := new Pool();
      nextImage := None;
      changes := 0;
      nextRow := 0;
      nextPos := 0;
      noticeQueued := false;
      lastChanges := 0;
      colorIndex := 0;
      offset := OFFSET_INIT;
      new;
      var current := pool.Alloc(DefaultImage());
      currentImage := current.value;
      assert (if currentImage == 0 then 1 else 0) in pool.free;
      var rx := pool.Alloc(DefaultImage());
      rxImage := rx.value;
      OwnedInit(currentImage, rxImage);
      assert State() == InitialState();
    }

    /** `if let Some(image) = next_image.take() { pool.free(image) }`. */
    method TakeNext()
      requires nextImage.Some? ==> nextImage.value !in pool.free
      modifies `nextImage, pool`free
      ensures nextImage == None
      ensures pool.free == old(pool.free) + if old(nextImage).Some? then {old(nextImage).value} else {}
    {
      if nextImage.Some? {
        pool.Free(nextImage.value);
        nextImage := None;
      }
    }

    /** The lock body in `receive_byte` once a whole frame is in, as written: only an empty mailbox
        passes the guard meant to free a pending image, so nothing is freed; a node is allocated and
        swapped in as the new `rx_image`, the received image going to `next_image`. */
    method CompleteFrame()
      requires Linked()
      modifies this, pool
      ensures Linked()
      ensures State() == Complete(old(State()))
    {
      OwnedCount(pool.free, currentImage, rxImage, nextImage);
      if nextImage.None? {
        TakeNext();
      }
      var future := pool.Alloc(DefaultImage());
      if future.Some? {
        OwnedPublish(old(pool.free), currentImage, rxImage, future.value);
        nextImage := Some(rxImage);
        rxImage := future.value;
      }
      noticeQueued := true;
      OwnedCount(pool.free, currentImage, rxImage, nextImage);
    }

    /** The `receive_byte` interrupt: `read` is the result of the UART read, `lineError` whether
        `check_for_error` failed. */
    method ReceiveByte(read: Option<Byte>, lineError: bool)
      requires Valid()
      modifies this, pool
      ensures State() == Receive(old(State()), read, lineError)
      ensures Valid()
    {
      if read.Some? {
        var b := read.value;
        if lineError {
          return;
        }
        if b == SYNC {
          nextPos := 0;
        } else if nextPos == USIZE_MAX {
          // ignored until the next sync byte
        } else {
          pool.WriteByte(rxImage, nextPos, b);
          nextPos := nextPos + 1;
        }
        if nextPos == FRAME_BYTES {
          CompleteFrame();
          nextPos := USIZE_MAX;
        }
      }
    }

    /** The `display` task: sends row `next_row` of the current image; after row 7 a pending image
        becomes the current one and the old current node is freed. */
    method Display()
      requires Valid()
      modifies this, pool, matrix
      ensures State() == DisplayStep(old(State()))
      ensures Valid()
      ensures matrix.trace == old(matrix.trace) + RowTrace(old(nextRow), Row(old(State()).current, old(nextRow)), matrix.gamma)
      ensures matrix.pins == RowLevels(old(matrix.pins), old(nextRow), Row(old(State()).current, old(nextRow)), matrix.gamma)
    {
      var row := nextRow;
      var pixels := Row(pool.memory[currentImage], row);
      matrix.SendRow(row, pixels);
      NextRow();
    }

    /** The end of `display`: after row 7 a pending image is taken, swapped with the current one
        and the old current node freed; then the row number advances modulo 8. */
    method NextRow()
      requires Valid()
      modifies this, pool
      ensures State() == DisplayStep(old(State()))
      ensures Valid()
    {
      if nextRow == 7 {
        if nextImage.Some? {
          OwnedSwap(pool.free, currentImage, rxImage, nextImage.value);
          var image := nextImage.value;
          nextImage := None;
          var previous := currentImage;
          currentImage := image;
          pool.Free(previous);
        }
      }
      nextRow := (nextRow + 1) % 8;
      OwnedCount(pool.free, currentImage, rxImage, nextImage);
    }

    /** The `notice_change` task: `changes` incremented unless that would overflow a `u32`. */
    method NoticeChange()
      requires Valid()
      modifies this
      ensures State() == NoticeStep(old(State()))
      ensures Valid()
    {
      if changes + 1 <= U32_MAX {
        changes := changes + 1;
      }
      noticeQueued := false;
    }

    /** The `screensaver` task, with the text renderer as a parameter; returns the delay in
        milliseconds before it runs again. */
    method Screensaver(render: Renderer) returns (delayMs: nat)
      requires Valid()
      modifies this, pool
      ensures (State(), delayMs) == ScreensaverStep(old(State()), render)
      ensures Valid()
    {
      var observed := changes;
      if lastChanges == observed {
        var banner := DrawBanner(render(TextColor(colorIndex), offset));
        PublishBanner(banner);
        delayMs := SCROLL_DELAY_MS;
      } else {
        offset := OFFSET_MAX;
        lastChanges := observed;
        delayMs := WAKE_DELAY_MS;
      }
    }

    /** The allocation and the lock in `screensaver`: the banner goes to a fresh node, which replaces
        a pending image (freed), and the text scrolls one column. */
    method PublishBanner(banner: Image)
      requires Valid()
      modifies this, pool
      ensures State() == ShowBanner(old(State()), banner)
      ensures Valid()
    {
      var image := pool.Alloc(banner);
      if image.Some? {
        OwnedBanner(old(pool.free), currentImage, rxImage, nextImage, image.value);
        TakeNext();
        nextImage := Some(image.value);
        offset := offset - 1;
        if offset == OFFSET_MIN {
          offset := OFFSET_MAX;
          colorIndex := (colorIndex + 1) % 3;
        }
      }
      OwnedCount(pool.free, currentImage, rxImage, nextImage);
    }
  }
}
