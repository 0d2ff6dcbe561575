# SSD1339 OLED driver — a Dafny model

This project models the MicroPython driver `SSD1339` for the SSD1339 colour
OLED controller. It covers four parts of the driver:

- the RGB565 colour packing `rgb`;
- the framing of every SPI transaction by `_write`, which drives chip select
  and data/command around one bus write;
- the frame refresh `show`, which sends one enable-write command and then 128
  scan lines, each a row of the frame buffer chosen by the panel height;
- construction, which checks the height, allocates a zeroed buffer, pulses
  reset, runs the optional bus callback, sends the vendor initialisation
  stream and refreshes once.

The pins, the SPI bus, the millisecond sleeps and the caller's callback are
outside the driver. The model treats them as a `Port` object that records one
`Event` per call, in order. `Transfers(t)` reads a trace `t` the way a device on
the bus would: it lists every SPI write, together with the chip-select and
data/command levels last driven before it. The lemmas are stated about what
the controller receives.

Files:

- `color.dfy` (module `Color`): `rgb`, on `bv8` channels and a `bv16` result.
- `bus.dfy` (module `Bus`): events, the `Port` class, and the trace readings
  `LastLevel` and `Transfers`.
- `rowmap.dfy` (module `RowMap`): the scan-line-to-buffer-row maps for 128-row
  and 96-row panels, with their bounds, bijection and coverage facts.
- `ssd1339.dfy` (module `Ssd1339Driver`): the driver class and the event
  sequences its methods produce, with lemmas about what the panel receives.

Code and comment disagree in one place. The comment at `ssd1339.py:65` says
the last band of a 96-row refresh sends rows "127 126 .. 95". The expression
`191 - l` for `l` in 96..127 actually gives rows 95..64. The model follows the
expression. That is what keeps every line slice inside the 96-row buffer
(`RowMap.SliceInBuffer`).

## Model

| member | source | states |
|---|---|---|
| `Color.Rgb` | ssd1339.py:10-11 | Bits 15..11 of the packed word are `r >> 3`, bits 10..5 are `g >> 2` and bits 4..0 are `b >> 3`. The word fits in 16 bits. |
| `Color.RgbSameWord` | ssd1339.py:11 | Two colours pack to the same word if and only if they agree on the top 5/6/5 bits of their channels. The encoding loses the low bits and nothing else. |
| `Color.RgbHighBitsOnly` | ssd1339.py:11 | `rgb(r, g, b) == rgb(r & 0xF8, g & 0xFC, b & 0xF8)`. |
| `RowMap.Row128` | ssd1339.py:55 | On a 128-row panel, line `l` sends row `(95 - l) % 128`, which always lies in [0, 128). |
| `RowMap.Row96` | ssd1339.py:59-65 | On a 96-row panel, every scan line sends a row in [0, 96). |
| `RowMap.SourceRow` | ssd1339.py:53-65 | The row chosen by height lies within that height's buffer. |
| `RowMap.Row128Involution` | ssd1339.py:55 | Applying the 128-row map twice gives back the scan line. |
| `RowMap.Row128Bijective` | ssd1339.py:54-57 | The 128-row map is injective on [0, 128), and every row in [0, 128) is sent by some line. |
| `RowMap.Row128Examples` | ssd1339.py:55 | Lines 0, 95, 96 and 127 send rows 95, 0, 127 and 96. |
| `RowMap.Hits128` | ssd1339.py:54-57 | Among the first n lines, row `row` is sent once if its line `Row128(row)` is below n, and otherwise not at all. |
| `RowMap.EachRowOnce128` | ssd1339.py:54-57 | A 128-row refresh sends every buffer row exactly once. |
| `RowMap.Row96Shape` | ssd1339.py:59-65 | Lines 0..63 count down from row 63 to row 0. Lines 64..95 stay on row 0. Lines 96..127 count down from row 95 to row 64. |
| `RowMap.Hits96` | ssd1339.py:59-66 | Closed form of how many of the first n lines send a given row on a 96-row panel. |
| `RowMap.Coverage96` | ssd1339.py:59-66 | A 96-row refresh sends row 0 33 times and every other row in [0, 96) once. It sends no row outside the buffer. |
| `RowMap.SliceInBuffer` | ssd1339.py:56-57 | For both heights, the slice `[start, start + width*2)` of every line lies inside the `height*width*2`-byte buffer. |
| `Ssd1339Driver.FrameDelivers` | ssd1339.py:41-46 | Whatever came before, `_write(mv, dc)` delivers `mv` exactly once. During the write the chip is selected (CS low) and DC equals `dc`. Afterwards CS is high, DC is still `dc` and reset is untouched. |
| `Ssd1339Driver.Ssd1339.Write` | ssd1339.py:41-46 | Appends exactly CS(1), DC(dc), CS(0), the write of `mv`, CS(1) to the trace. |
| `Ssd1339Driver.LineBytes` | ssd1339.py:56-57 | The slice sent for a scan line is exactly `width*2` bytes long. |
| `Ssd1339Driver.LineCarriesRow` | ssd1339.py:56-57 | Bytes `2x` and `2x+1` of a line are the bytes of pixel `(x, SourceRow(l))`, at buffer offset `(y*width + x)*2`. |
| `Ssd1339Driver.LineTransfersAt` | ssd1339.py:53-66 | The line transfers are, in scan-line order, chip-selected data-mode writes of `width*2` bytes, each carrying its line's source row. |
| `Ssd1339Driver.LinesDeliver` | ssd1339.py:53-66 | The line loop adds exactly the line transfers to what the bus has seen, and leaves the chip deselected. |
| `Ssd1339Driver.ShowDelivers` | ssd1339.py:47-66 | A refresh delivers one command-mode write of `[0x5C]`, then the 128 line transfers, and leaves the chip deselected. |
| `Ssd1339Driver.ShowTransferCount` | ssd1339.py:47-66 | A refresh makes 129 transfers. The first is the command `[0x5C]`. Each of the other 128 is a data-mode write of `width*2` bytes, sent with the chip selected. |
| `Ssd1339Driver.ShowCallbackFirst` | ssd1339.py:50-52 | A refresh calls the bus callback exactly when one was given, only as its first event, and at most once. It never drives the reset line. |
| `Ssd1339Driver.Ssd1339.Show` | ssd1339.py:47-66 | The events `show` produces are exactly `ShowTrace` of the current buffer. The buffer is not modified. |
| `Ssd1339Driver.Ssd1339.SendLines128` | ssd1339.py:53-57 | The 128-row loop produces one data transaction per scan line, for rows `(95 - l) % 128`. |
| `Ssd1339Driver.Ssd1339.SendLines96` | ssd1339.py:58-66 | The 96-row loop produces one data transaction per scan line, using the piecewise row start. |
| `Ssd1339Driver.Ssd1339.SendLine` | ssd1339.py:57 | One line write sends the `width*2` bytes of the line's source row, in data mode. |
| `Ssd1339Driver.Ssd1339.PulseReset` | ssd1339.py:28-31 | Drives reset low, sleeps 1 ms, drives it high, sleeps 1 ms. |
| `Ssd1339Driver.Ssd1339.Create` | ssd1339.py:13-39 | A height outside {96, 128} gives `UnsupportedHeight` and leaves the trace unchanged. Any other height gives a fresh driver whose buffer is `height*width*2` zero bytes, with the construction trace appended. |
| `Ssd1339Driver.Ssd1339.constructor` | ssd1339.py:16-39 | Allocates the zeroed buffer. Emits the reset pulse, then the callback (if given), then the initialisation stream in command mode, then a full refresh. |
| `Ssd1339Driver.InitOrder` | ssd1339.py:28-39 | Construction starts with reset low, 1 ms, reset high, 1 ms. The callback, if present, comes next. No SPI write occurs before these. Every SPI write happens with reset high. |
| `Ssd1339Driver.InitDelivers` | ssd1339.py:35-39 | Construction delivers the initialisation stream as one command-mode write. Then it delivers a full refresh of the all-zero buffer. |
| `Ssd1339Driver.InitBlobEndsWithDisplayOn` | ssd1339.py:35-38 | The 43-byte initialisation stream ends with display-on (`0xAF`) and contains it nowhere else. So display-on is not the first command sent. |

## Left out

- `init_display` (ssd1339.py:67-114): it calls `write_command` and `write_commands`, which are not defined in this file. Construction never calls it; it uses the initialisation stream instead.
- The meaning of the vendor register bytes in the initialisation stream: the stream is kept as an opaque constant.
- `utime.sleep_ms`: elapsed wall-clock time is not modelled. Each sleep appears as a `Sleep(ms)` event, so its position in the order and its requested duration (`Sleep(1)` in `InitOrder`) are checked. The time that actually passes is not.
- `gc.collect`, `micropython` and the `memoryview` over the buffer: these are memory management. A slice of the buffer is modelled as a `seq<bv8>` copy, which is what `bytes(mv)` sends.
- The `framebuf.FrameBuffer` superclass and `BoolPalette` (drawing primitives, palette): they come from libraries outside this file. The buffer is a plain `array<bv8>` that other code may write between refreshes.
- The SPI and GPIO hardware, and what the caller's callback does: each call is only recorded as an event. A failing bus write is not modelled; in the source such an error propagates unchanged to the caller of `show` or the constructor.
- `Color.Rgb`: the channels are 8-bit values. The Python `rgb` accepts any integer. Red and green are masked with `& 0xF8` and `& 0xFC`, so out-of-range values there only lose their upper bits. Blue is shifted without a mask. A blue value from 256 to 2^19 - 1 spills into the green and red fields while the word still fits in 16 bits (`rgb(0, 0, 256) == 32 == rgb(0, 4, 0)`). A blue value of 2^19 or more gives a word wider than 16 bits, and a negative blue gives a negative result. The `bv8` channels do not capture this behaviour.
- `Ssd1339Driver.Ssd1339.Create`: `width` is a natural number. In the source a negative width fails later, at the `bytearray` allocation, with a different error.
- The default arguments `height=128, width=128, init_spi=False` are not modelled: `Create` has no default arguments, and the source's defaults correspond to `Create(port, 128, 128, false)`. The callback is reduced to whether one was given.
