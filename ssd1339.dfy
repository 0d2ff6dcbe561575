/** The SSD1339 OLED driver: construction (height check, zeroed frame buffer,
    reset pulse, vendor initialisation, first refresh), the framing of every
    SPI transaction, and the refresh that streams the buffer to the panel in
    the controller's scan order. */
module Ssd1339Driver {
  import opened Bus
  import opened RowMap

  /** Levels of the data/command line (pindc: 1 = data, 0 = command). */
  const CMD: Bit := 0
  const DATA: Bit := 1

  /** The command that enables writes to display RAM, sent before each frame. */
  const ENABLE_WRITE: seq<bv8> := [0x5C]

  /** The vendor initialisation stream sent in command mode by the constructor.
      Its register values are kept as opaque data. */
  const INIT_BLOB: seq<bv8> := [
    0xFD, 0x12, 0xFD, 0xB1, 0xAE, 0xB3, 0xF1, 0xCA, 0x7F, 0xA0, 0x74,
    0x15, 0x00, 0x7F, 0x75, 0x00, 0x7F, 0xA1, 0x00, 0xA2, 0x00, 0xB5, 0x00, 0xAB, 0x01,
    0xB1, 0x32, 0xBE, 0x05, 0xA6, 0xC1, 0xC8, 0x80, 0xC8, 0xC7, 0x0F,
    0xB4, 0xA0, 0xB5, 0x55, 0xB6, 0x01, 0xAF]

  /** The display-on opcode. */
  const DISPLAY_ON: bv8 := 0xAF

  /** Construction rejects any height but 96 and 128 (a ValueError). */
  datatype Error = UnsupportedHeight(height: int)

  datatype Result<T> = Ok(value: T) | Err(error: Error)

  /** Construction succeeds only for the two supported panel heights. */
  predicate SupportedHeight(height: int)
  {
    height == 96 || height == 128
  }

  /** The events of one transaction `_write(mv, dc)`: chip select idle, mode
      line set, chip select active, the bytes, chip select idle again. */
  function Frame(data: seq<bv8>, dc: Bit): seq<Event>
  {
    [SetPin(ChipSelect, 1), SetPin(DataCommand, dc), SetPin(ChipSelect, 0), SpiWrite(data), SetPin(ChipSelect, 1)]
  }

  /** Whatever came before, a transaction delivers its bytes exactly once,
      with the chip selected and the mode line at dc, and leaves the chip
      deselected with the mode line still at dc; the reset line is not touched. */
  lemma FrameDelivers(t: seq<Event>, data: seq<bv8>, dc: Bit)
    ensures Transfers(t + Frame(data, dc)) == Transfers(t) + [Transfer(Some(0), Some(dc), data)]
    ensures LastLevel(t + Frame(data, dc), ChipSelect) == Some(1)
    ensures LastLevel(t + Frame(data, dc), DataCommand) == Some(dc)
    ensures LastLevel(t + Frame(data, dc), Reset) == LastLevel(t, Reset)
  {
    var f := Frame(data, dc);
    var t1, t2, t3, t4 := t + [f[0]], t + f[..2], t + f[..3], t + f[..4];
    assert t2 == t1 + [f[1]] && t3 == t2 + [f[2]] && t4 == t3 + [f[3]] && t + f == t4 + [f[4]];
    forall pin: Pin
      ensures LastLevel(t1, pin) == (if pin == ChipSelect then Some(1) else LastLevel(t, pin))
      ensures LastLevel(t2, pin) == (if pin == ChipSelect then Some(1) else if pin == DataCommand then Some(dc) else LastLevel(t, pin))
      ensures LastLevel(t3, pin) == (if pin == ChipSelect then Some(0) else if pin == DataCommand then Some(dc) else LastLevel(t, pin))
      ensures LastLevel(t4, pin) == LastLevel(t3, pin)
      ensures LastLevel(t + f, pin) == (if pin == ChipSelect then Some(1) else if pin == DataCommand then Some(dc) else LastLevel(t, pin))
    {
      LastLevelSnoc(t, f[0], pin);
      LastLevelSnoc(t1, f[1], pin);
      LastLevelSnoc(t2, f[2], pin);
      LastLevelSnoc(t3, f[3], pin);
      LastLevelSnoc(t4, f[4], pin);
    }
    TransfersSnoc(t, f[0]);
    TransfersSnoc(t1, f[1]);
    TransfersSnoc(t2, f[2]);
    TransfersSnoc(t3, f[3]);
    TransfersSnoc(t4, f[4]);
  }

  /** A buffer of `height` rows of `width` pixels at two bytes per pixel. */
  ghost predicate Geometry(buf: seq<bv8>, height: int, width: nat)
  {
    SupportedHeight(height) && |buf| == height * width * 2
  }

  /** The bytes sent on scan line l: the whole of buffer row SourceRow(height, l). */
  function LineBytes(buf: seq<bv8>, height: int, width: nat, l: int): (s: seq<bv8>)
    requires Geometry(buf, height, width) && 0 <= l < SCAN_LINES
    ensures |s| == width * 2
  {
    SliceInBuffer(height, width, l);
    buf[RowStart(height, width, l)..RowStart(height, width, l) + width * 2]
  }

  /** Byte offset of pixel (x, y) in the buffer. */
  function PixelOffset(width: nat, x: nat, y: nat): nat
  {
    (y * width + x) * 2
  }

  /** Line l carries the pixels of its source row in column order: bytes 2x
      and 2x+1 of the line are the two bytes of pixel (x, SourceRow(height, l)). */
  lemma LineCarriesRow(buf: seq<bv8>, height: int, width: nat, l: int, x: nat)
    requires Geometry(buf, height, width) && 0 <= l < SCAN_LINES && x < width
    ensures PixelOffset(width, x, SourceRow(height, l)) + 1 < |buf|
    ensures LineBytes(buf, height, width, l)[2 * x] == buf[PixelOffset(width, x, SourceRow(height, l))]
    ensures LineBytes(buf, height, width, l)[2 * x + 1] == buf[PixelOffset(width, x, SourceRow(height, l)) + 1]
  {
    var row := SourceRow(height, l);
    SliceInBuffer(height, width, l);
    assert RowStart(height, width, l) + 2 * x == PixelOffset(width, x, row);
  }

  /** The events of the line loop after its first n iterations. */
  function LineFrames(buf: seq<bv8>, height: int, width: nat, n: nat): seq<Event>
    requires Geometry(buf, height, width) && n <= SCAN_LINES
  {
    if n == 0 then [] else LineFrames(buf, height, width, n - 1) + Frame(LineBytes(buf, height, width, n - 1), DATA)
  }

  /** One more iteration of the line loop appends one data transaction. */
  lemma LineFramesStep(head: seq<Event>, buf: seq<bv8>, height: int, width: nat, l: nat)
    requires Geometry(buf, height, width) && l < SCAN_LINES
    ensures head + LineFrames(buf, height, width, l + 1)
         == head + LineFrames(buf, height, width, l) + Frame(LineBytes(buf, height, width, l), DATA)
  {
  }

  /** What the panel receives from the first n iterations of the line loop. */
  function LineTransfers(buf: seq<bv8>, height: int, width: nat, n: nat): seq<Transfer>
    requires Geometry(buf, height, width) && n <= SCAN_LINES
  {
    if n == 0 then [] else LineTransfers(buf, height, width, n - 1) + [Transfer(Some(0), Some(DATA), LineBytes(buf, height, width, n - 1))]
  }

  /** The n line transfers are, in order, one chip-selected data-mode
      transfer of width*2 bytes per scan line, carrying that line's row. */
  lemma {:induction false} LineTransfersAt(buf: seq<bv8>, height: int, width: nat, n: nat)
    requires Geometry(buf, height, width) && n <= SCAN_LINES
    ensures |LineTransfers(buf, height, width, n)| == n
    ensures forall l :: 0 <= l < n ==>
      LineTransfers(buf, height, width, n)[l] == Transfer(Some(0), Some(DATA), LineBytes(buf, height, width, l))
      && |LineTransfers(buf, height, width, n)[l].data| == width * 2
  {
    if n > 0 {
      LineTransfersAt(buf, height, width, n - 1);
    }
  }

  /** The events a refresh produces, in order: the callback if there is one,
      the enable-write command, then one data transaction per scan line. */
  function ShowTrace(buf: seq<bv8>, height: int, width: nat, callback: bool): seq<Event>
    requires Geometry(buf, height, width)
  {
    (if callback then [BusCallback] else []) + Frame(ENABLE_WRITE, CMD) + LineFrames(buf, height, width, SCAN_LINES)
  }

  /** Events made only of transactions: pin writes to chip select or
      data/command, and SPI writes. */
  ghost predicate TransactionsOnly(t: seq<Event>)
  {
    forall i :: 0 <= i < |t| ==> t[i].SpiWrite? || (t[i].SetPin? && t[i].pin != Reset)
  }

  /** The line loop only frames transactions: no reset, sleep or callback. */
  lemma {:induction false} LineFramesTransactionsOnly(buf: seq<bv8>, height: int, width: nat, n: nat)
    requires Geometry(buf, height, width) && n <= SCAN_LINES
    ensures TransactionsOnly(LineFrames(buf, height, width, n))
  {
    if n > 0 {
      LineFramesTransactionsOnly(buf, height, width, n - 1);
      var prev := LineFrames(buf, height, width, n - 1);
      var f := Frame(LineBytes(buf, height, width, n - 1), DATA);
      var all: seq<Event> := prev + f;
      assert LineFrames(buf, height, width, n) == all;
      forall i | 0 <= i < |all|
        ensures all[i].SpiWrite? || (all[i].SetPin? && all[i].pin != Reset)
      {
        if i >= |prev| {
          assert all[i] == f[i - |prev|];
        }
      }
    }
  }

  /** A refresh calls the bus callback at most once, and only as its very
      first event, and never drives the reset line. */
  lemma ShowCallbackFirst(buf: seq<bv8>, height: int, width: nat, callback: bool)
    requires Geometry(buf, height, width)
    ensures callback <==> ShowTrace(buf, height, width, callback)[0] == BusCallback
    ensures forall i :: 0 < i < |ShowTrace(buf, height, width, callback)| ==> ShowTrace(buf, height, width, callback)[i] != BusCallback
    ensures Untouched(ShowTrace(buf, height, width, callback), Reset)
  {
    var s := ShowTrace(buf, height, width, callback);
    var pre := (if callback then [BusCallback] else []) + Frame(ENABLE_WRITE, CMD);
    var lines := LineFrames(buf, height, width, SCAN_LINES);
    assert s == pre + lines;
    LineFramesTransactionsOnly(buf, height, width, SCAN_LINES);
    forall i | 0 <= i < |s|
      ensures i > 0 ==> s[i] != BusCallback
      ensures !(s[i].SetPin? && s[i].pin == Reset)
    {
      if i >= |pre| {
        assert s[i] == lines[i - |pre|];
      }
    }
  }

  /** The line loop: after the previous events t it delivers exactly the line
      transfers and leaves the chip deselected. */
  lemma {:induction false} LinesDeliver(t: seq<Event>, buf: seq<bv8>, height: int, width: nat, n: nat)
    requires Geometry(buf, height, width) && n <= SCAN_LINES
    ensures Transfers(t + LineFrames(buf, height, width, n)) == Transfers(t) + LineTransfers(buf, height, width, n)
    ensures n > 0 ==> LastLevel(t + LineFrames(buf, height, width, n), ChipSelect) == Some(1)
  {
    if n == 0 {
      assert t + [] == t;
    } else {
      var prev := LineFrames(buf, height, width, n - 1);
      var data := LineBytes(buf, height, width, n - 1);
      LinesDeliver(t, buf, height, width, n - 1);
      Assoc(t, prev, Frame(data, DATA));
      FrameDelivers(t + prev, data, DATA);
      Assoc(Transfers(t), LineTransfers(buf, height, width, n - 1), [Transfer(Some(0), Some(DATA), data)]);
    }
  }

  /** A refresh delivers, after whatever came before, exactly one command
      transfer of the enable-write opcode followed by the 128 line transfers,
      and leaves the chip deselected. */
  lemma ShowDelivers(t: seq<Event>, buf: seq<bv8>, height: int, width: nat, callback: bool)
    requires Geometry(buf, height, width)
    ensures Transfers(t + ShowTrace(buf, height, width, callback))
         == Transfers(t) + [Transfer(Some(0), Some(CMD), ENABLE_WRITE)] + LineTransfers(buf, height, width, SCAN_LINES)
    ensures LastLevel(t + ShowTrace(buf, height, width, callback), ChipSelect) == Some(1)
  {
    var pre := t + if callback then [BusCallback] else [];
    var lines := LineFrames(buf, height, width, SCAN_LINES);
    TransfersSnoc(t, BusCallback);
    assert Transfers(pre) == Transfers(t) by {
      if !callback {
        assert pre == t;
      }
    }
    assert t + ShowTrace(buf, height, width, callback) == (pre + Frame(ENABLE_WRITE, CMD)) + lines;
    FrameDelivers(pre, ENABLE_WRITE, CMD);
    LinesDeliver(pre + Frame(ENABLE_WRITE, CMD), buf, height, width, SCAN_LINES);
  }

  /** Counting the transfers of one refresh: 129 of them, all with the chip
      selected; the first is the one-byte enable-write command, and the k-th
      of the others is a data-mode transfer of width*2 bytes carrying the
      source row of scan line k. */
  lemma ShowTransferCount(t: seq<Event>, buf: seq<bv8>, height: int, width: nat, callback: bool)
    requires Geometry(buf, height, width)
    ensures |Transfers(t + ShowTrace(buf, height, width, callback))| == |Transfers(t)| + 1 + SCAN_LINES
    ensures Transfers(t + ShowTrace(buf, height, width, callback))[|Transfers(t)|] == Transfer(Some(0), Some(CMD), [0x5C])
    ensures forall k :: 0 <= k < SCAN_LINES ==>
      var x := Transfers(t + ShowTrace(buf, height, width, callback))[|Transfers(t)| + 1 + k];
      x.cs == Some(0) && x.dc == Some(DATA) && |x.data| == width * 2 && x.data == LineBytes(buf, height, width, k)
  {
    ShowDelivers(t, buf, height, width, callback);
    LineTransfersAt(buf, height, width, SCAN_LINES);
  }

  /** A zero-filled sequence of n bytes. */
  function Zeros(n: nat): (s: seq<bv8>)
    ensures |s| == n && forall i :: 0 <= i < n ==> s[i] == 0
  {
    seq(n, _ => 0)
  }

  /** The reset pulse: low, hold 1 ms, high, hold 1 ms. */
  const RESET_PULSE: seq<Event> := [SetPin(Reset, 0), Sleep(1), SetPin(Reset, 1), Sleep(1)]

  /** The events of a successful construction, in order. */
  function InitTrace(height: int, width: nat, callback: bool): seq<Event>
    requires SupportedHeight(height)
  {
    RESET_PULSE + (if callback then [BusCallback] else []) + Frame(INIT_BLOB, CMD)
      + ShowTrace(Zeros(height * width * 2), height, width, callback)
  }

  /** Construction order: the reset line is pulled low and then released,
      each level held 1 ms, before anything else; the callback, if any, runs
      next, before any bus write; the reset line is not driven again, so
      every SPI write happens with the reset line high. */
  lemma InitOrder(height: int, width: nat, callback: bool)
    requires SupportedHeight(height)
    ensures InitTrace(height, width, callback)[..4] == [SetPin(Reset, 0), Sleep(1), SetPin(Reset, 1), Sleep(1)]
    ensures callback ==> InitTrace(height, width, callback)[4] == BusCallback
    ensures forall i :: 0 <= i < |InitTrace(height, width, callback)| && InitTrace(height, width, callback)[i].SpiWrite? ==>
      (if callback then 5 else 4) <= i && LastLevel(InitTrace(height, width, callback)[..i], Reset) == Some(1)
  {
    var s := InitTrace(height, width, callback);
    var head := RESET_PULSE[..3];
    var cb: seq<Event> := if callback then [BusCallback] else [];
    var show := ShowTrace(Zeros(height * width * 2), height, width, callback);
    var rest := [Sleep(1)] + cb + Frame(INIT_BLOB, CMD) + show;
    assert s == head + rest;
    ShowCallbackFirst(Zeros(height * width * 2), height, width, callback);
    assert Untouched(rest, Reset) by {
      forall i | 0 <= i < |rest|
        ensures !(rest[i].SetPin? && rest[i].pin == Reset)
      {
        var k := 1 + |cb| + 5;
        if i >= k {
          assert rest[i] == show[i - k];
        }
      }
    }
    assert LastLevel(head, Reset) == Some(1) by {
      LastLevelSnoc(head[..2], head[2], Reset);
      assert head == head[..2] + [head[2]];
    }
    forall i | 0 <= i < |s| && s[i].SpiWrite?
      ensures (if callback then 5 else 4) <= i && LastLevel(s[..i], Reset) == Some(1)
    {
      assert i >= 3 + 1 + |cb|;
      assert s[..i] == head + rest[..i - 3];
      UntouchedPrefix(rest, i - 3, Reset);
      LastLevelUntouched(head, rest[..i - 3], Reset);
    }
  }

  /** What the panel receives from construction: the initialisation stream as
      one command transfer, then a full refresh of the all-zero buffer. */
  lemma InitDelivers(t: seq<Event>, height: int, width: nat, callback: bool)
    requires SupportedHeight(height)
    ensures Transfers(t + InitTrace(height, width, callback))
         == Transfers(t) + [Transfer(Some(0), Some(CMD), INIT_BLOB), Transfer(Some(0), Some(CMD), ENABLE_WRITE)]
            + LineTransfers(Zeros(height * width * 2), height, width, SCAN_LINES)
  {
    var buf := Zeros(height * width * 2);
    var u := t + RESET_PULSE + if callback then [BusCallback] else [];
    var f := Frame(INIT_BLOB, CMD);
    InitSplit(t, height, width, callback);
    FrameDelivers(u, INIT_BLOB, CMD);
    ShowDelivers(u + f, buf, height, width, callback);
    var a, b := Transfer(Some(0), Some(CMD), INIT_BLOB), Transfer(Some(0), Some(CMD), ENABLE_WRITE);
    Assoc(Transfers(t), [a], [b]);
    assert [a] + [b] == [a, b];
  }

  /** Construction up to the initialisation stream sends nothing on the bus. */
  lemma InitSplit(t: seq<Event>, height: int, width: nat, callback: bool)
    requires SupportedHeight(height)
    ensures var u := t + RESET_PULSE + if callback then [BusCallback] else [];
      && Transfers(u) == Transfers(t)
      && t + InitTrace(height, width, callback) == (u + Frame(INIT_BLOB, CMD)) + ShowTrace(Zeros(height * width * 2), height, width, callback)
  {
    var quiet := RESET_PULSE + if callback then [BusCallback] else [];
    var f := Frame(INIT_BLOB, CMD);
    var show := ShowTrace(Zeros(height * width * 2), height, width, callback);
    assert Quiet(quiet);
    TransfersQuiet(t, quiet);
    Assoc(t, RESET_PULSE, if callback then [BusCallback] else []);
    Assoc(quiet, f, show);
    Assoc(t, quiet, f + show);
    Assoc(t + quiet, f, show);
  }

  /** The initialisation stream ends with display-on and contains it nowhere
      else, so display-on is never the first command the panel sees. */
  lemma InitBlobEndsWithDisplayOn()
    ensures |INIT_BLOB| == 43 && INIT_BLOB[42] == DISPLAY_ON
    ensures forall i :: 0 <= i < 42 ==> INIT_BLOB[i] != DISPLAY_ON
  {
  }

  /** The driver object. The pins, the SPI bus and the callback are reached
      through `port`; the frame buffer is owned by the driver and may be
      written by the drawing layer between refreshes. */
  class Ssd1339 {
    const port: Port
    const height: int
    const width: nat
    const hasCallback: bool
    const buffer: array<bv8>

    ghost predicate Valid()
    {
      SupportedHeight(height) && buffer.Length == height * width * 2
    }

    /** `SSD1339(spi, pincs, pindc, pinrs, height, width, init_spi)`: fails
        with UnsupportedHeight, before touching any pin or the bus, unless the
        height is 96 or 128; otherwise it builds the driver. */
    static method Create(port: Port, height: int, width: nat, hasCallback: bool) returns (r: Result<Ssd1339>)
      modifies port
      ensures r.Err? <==> !SupportedHeight(height)
      ensures r.Err? ==> r.error == UnsupportedHeight(height) && port.log == old(port.log)
      ensures r.Ok? ==>
        && fresh(r.value) && fresh(r.value.buffer) && r.value.Valid()
        && r.value.port == port && r.value.height == height && r.value.width == width
        && r.value.hasCallback == hasCallback
        && r.value.buffer[..] == Zeros(height * width * 2)
        && port.log == old(port.log) + InitTrace(height, width, hasCallback)
    {
      if !SupportedHeight(height) {
        return Err(UnsupportedHeight(height));
      }
      var d := new Ssd1339(port, height, width, hasCallback);
      r := Ok(d);
    }

    /** Construction for a supported height: a zeroed buffer of
        height*width*2 bytes, the reset pulse, the callback, the vendor
        initialisation stream in command mode, then a full refresh. */
    constructor (port: Port, height: int, width: nat, hasCallback: bool)
      requires SupportedHeight(height)
      modifies port
      ensures Valid() && fresh(buffer)
      ensures this.port == port && this.height == height && this.width == width && this.hasCallback == hasCallback
      ensures buffer[..] == Zeros(height * width * 2)
      ensures port.log == old(port.log) + InitTrace(height, width, hasCallback)
    {
      this.port := port;
      this.height := height;
      this.width := width;
      this.hasCallback := hasCallback;
      buffer := new bv8[height * width * 2](_ => 0);
      new;
      ghost var log0 := port.log;
      PulseReset();
      ghost var cb: seq<Event> := if hasCallback then [BusCallback] else [];
      if hasCallback {
        port.Callback();
      }
      Assoc(log0, RESET_PULSE, cb);
      ghost var f := Frame(INIT_BLOB, CMD);
      Write(INIT_BLOB, CMD);
      Assoc(log0, RESET_PULSE + cb, f);
      ghost var zeros := Zeros(height * width * 2);
      assert buffer[..] == zeros;
      Show();
      assert buffer[..] == zeros;
      Assoc(log0, RESET_PULSE + cb + f, ShowTrace(zeros, height, width, hasCallback));
    }

    /** Pulse the reset line: low for 1 ms, then high for 1 ms. */
    method PulseReset()
      modifies port
      ensures port.log == old(port.log) + RESET_PULSE
    {
      port.SetReset(0);
      port.SleepMs(1);
      port.SetReset(1);
      port.SleepMs(1);
    }

    /** `_write(mv, dc)`: one framed transaction. */
    method Write(data: seq<bv8>, dc: Bit)
      modifies port
      ensures port.log == old(port.log) + Frame(data, dc)
    {
      port.SetChipSelect(1);
      port.SetDataCommand(dc);
      port.SetChipSelect(0);
      port.Write(data);
      port.SetChipSelect(1);
    }

    /** `show()`: callback, enable-write command, then the 128 scan lines in
        the controller's order; the buffer is only read. */
    method Show()
      requires Valid()
      modifies port
      ensures port.log == old(port.log) + ShowTrace(buffer[..], height, width, hasCallback)
      ensures unchanged(buffer)
    {
      ghost var buf := buffer[..];
      ghost var cb: seq<Event> := if hasCallback then [BusCallback] else [];
      if hasCallback {
        port.Callback();
      }
      Write(ENABLE_WRITE, CMD);
      assert buffer[..] == buf;
      if height == 128 {
        SendLines128();
      } else {
        SendLines96();
      }
      assert buffer[..] == buf;
      ghost var f, lines := Frame(ENABLE_WRITE, CMD), LineFrames(buf, height, width, SCAN_LINES);
      Assoc(old(port.log) + cb, f, lines);
      Assoc(old(port.log), cb, f + lines);
      Assoc(cb, f, lines);
    }

    /** The line loop of a 128-row panel: line l sends row (95 - l) % 128. */
    method SendLines128()
      requires Valid() && height == 128
      modifies port
      ensures port.log == old(port.log) + LineFrames(buffer[..], height, width, SCAN_LINES)
    {
      var bw := width * 2;
      ghost var head := port.log;
      ghost var buf := buffer[..];
      for l := 0 to SCAN_LINES
        invariant port.log == head + LineFrames(buf, height, width, l)
      {
        LineFramesStep(head, buf, height, width, l);
        var l0 := (95 - l) % 128;
        var start := l0 * width * 2;
        SendLine(l, start, bw);
      }
    }

    /** The line loop of a 96-row panel: lines 0..63 send rows 63..0, lines
        64..95 resend row 0, lines 96..127 send rows 95..64. */
    method SendLines96()
      requires Valid() && height == 96
      modifies port
      ensures port.log == old(port.log) + LineFrames(buffer[..], height, width, SCAN_LINES)
    {
      var bw := width * 2;
      ghost var head := port.log;
      ghost var buf := buffer[..];
      for l := 0 to SCAN_LINES
        invariant port.log == head + LineFrames(buf, height, width, l)
      {
        LineFramesStep(head, buf, height, width, l);
        var start;
        if l < 64 {
          start := (63 - l) * width * 2;
        } else if l < 96 {
          start := 0;
        } else {
          start := (191 - l) * width * 2;
        }
        SendLine(l, start, bw);
      }
    }

    /** One iteration of the line loop: send the width*2 bytes at `start`,
        which the loop computes as the start of scan line l's source row. */
    method SendLine(l: nat, start: int, bw: nat)
      requires Valid() && l < SCAN_LINES && start == RowStart(height, width, l) && bw == width * 2
      modifies port
      ensures port.log == old(port.log) + Frame(LineBytes(buffer[..], height, width, l), DATA)
    {
      SliceInBuffer(height, width, l);
      assert buffer[start..start + bw] == LineBytes(buffer[..], height, width, l);
      Write(buffer[start..start + bw], DATA);
    }
  }
}
