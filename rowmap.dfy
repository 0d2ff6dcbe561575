/** The scan-order remapping of SSD1339.show: the controller always scans 128
    lines, and each scan line l in [0, 128) is fed from one row of the pixel
    buffer, chosen by the panel height. */
module RowMap {

  /** Number of scan lines the controller is driven through on every refresh. */
  const SCAN_LINES := 128

  /** 128-row panel: a rotation, 95 94 .. 1 0 127 126 .. 96. Python's % with a
      positive modulus and Dafny's % agree (both give a result in [0, 128)). */
  function Row128(l: int): (row: int)
    ensures 0 <= row < 128
  {
    (95 - l) % 128
  }

  /** 96-row panel: lines 0..63 send rows 63..0, lines 64..95 resend row 0 and
      lines 96..127 send rows 95..64. */
  function Row96(l: int): (row: int)
    requires 0 <= l < SCAN_LINES
    ensures 0 <= row < 96
  {
    if l < 64 then 63 - l else if l < 96 then 0 else 191 - l
  }

  /** The buffer row sent on scan line l; any height other than 128 takes the
      96-row branch, as the driver does once construction has checked it. */
  function SourceRow(height: int, l: int): (row: int)
    requires 0 <= l < SCAN_LINES
    ensures 0 <= row < (if height == 128 then 128 else 96)
  {
    if height == 128 then Row128(l) else Row96(l)
  }

  /** Number of scan lines in [0, n) that send buffer row `row`. */
  function Hits(height: int, row: int, n: nat): nat
    requires n <= SCAN_LINES
  {
    if n == 0 then 0 else Hits(height, row, n - 1) + if SourceRow(height, n - 1) == row then 1 else 0
  }

  /** The 128-row map undoes itself. */
  lemma Row128Involution(l: int)
    requires 0 <= l < SCAN_LINES
    ensures Row128(Row128(l)) == l
  {
  }

  /** Buffer row `row` is sent on some scan line of a 128-row refresh. */
  ghost predicate Sent128(row: int)
  {
    exists l :: 0 <= l < SCAN_LINES && Row128(l) == row
  }

  /** Hence it is a bijection on [0, 128): distinct lines send distinct rows,
      and every row is sent by some line. */
  lemma Row128Bijective()
    ensures forall l1, l2 :: 0 <= l1 < SCAN_LINES && 0 <= l2 < SCAN_LINES && Row128(l1) == Row128(l2) ==> l1 == l2
    ensures forall row :: 0 <= row < 128 ==> Sent128(row)
  {
    forall l1, l2 | 0 <= l1 < SCAN_LINES && 0 <= l2 < SCAN_LINES && Row128(l1) == Row128(l2)
      ensures l1 == l2
    {
      Row128Involution(l1);
      Row128Involution(l2);
    }
    forall row | 0 <= row < 128
      ensures Sent128(row)
    {
      Row128Involution(row);
      assert Row128(Row128(row)) == row;
    }
  }

  /** The scan order of a 128-row refresh, at its four turning points. */
  lemma Row128Examples()
    ensures Row128(0) == 95 && Row128(95) == 0 && Row128(96) == 127 && Row128(127) == 96
  {
  }

  /** Shape of the 96-row map: lines 0..63 count down from row 63 to row 0,
      lines 64..95 stay on row 0, lines 96..127 count down from row 95 to
      row 64, so the last band never reaches past the 96 buffer rows. */
  lemma Row96Shape()
    ensures Row96(0) == 63 && Row96(63) == 0
    ensures forall l :: 0 < l < 64 ==> Row96(l) == Row96(l - 1) - 1
    ensures forall l :: 64 <= l < 96 ==> Row96(l) == 0
    ensures Row96(96) == 95 && Row96(127) == 64
    ensures forall l :: 96 < l < SCAN_LINES ==> Row96(l) == Row96(l - 1) - 1
  {
  }

  /** Counting form of the bijection: the first n lines send row `row` once
      if its line Row128(row) is among them and not at all otherwise. */
  lemma {:induction false} Hits128(row: int, n: nat)
    requires 0 <= row < 128 && n <= SCAN_LINES
    ensures Hits(128, row, n) == if Row128(row) < n then 1 else 0
  {
    if n > 0 {
      Hits128(row, n - 1);
      Row128Involution(row);
      Row128Involution(n - 1);
    }
  }

  /** A 128-row refresh sends every buffer row exactly once. */
  lemma EachRowOnce128(row: int)
    requires 0 <= row < 128
    ensures Hits(128, row, SCAN_LINES) == 1
  {
    Hits128(row, SCAN_LINES);
  }

  /** Counting for the 96-row map over the first n lines: row 0 is sent by
      lines 63..95, every other row r < 64 by line 63 - r alone, every row
      r in 64..95 by line 191 - r alone, and no other row at all. */
  lemma {:induction false} Hits96(row: int, n: nat)
    requires n <= SCAN_LINES
    ensures Hits(96, row, n) ==
      if row == 0 then (if n <= 63 then 0 else if n <= 96 then n - 63 else 33)
      else if 0 < row < 64 then (if 63 - row < n then 1 else 0)
      else if 64 <= row < 96 then (if 191 - row < n then 1 else 0)
      else 0
  {
    if n > 0 {
      Hits96(row, n - 1);
    }
  }

  /** A 96-row refresh covers the whole buffer: row 0 goes out 33 times,
      every other row once, and nothing outside the 96 rows is sent. */
  lemma Coverage96(row: int)
    ensures Hits(96, row, SCAN_LINES) == if row == 0 then 33 else if 0 < row < 96 then 1 else 0
  {
    Hits96(row, SCAN_LINES);
  }

  /** a <= b scaled by a non-negative factor. */
  lemma MulMonotone(a: int, b: int, k: int)
    requires a <= b && 0 <= k
    ensures a * k <= b * k
  {
  }

  /** Byte offset at which scan line l's source row starts in a buffer of
      `width`-pixel rows at two bytes per pixel. */
  function RowStart(height: int, width: nat, l: int): nat
    requires 0 <= l < SCAN_LINES
  {
    SourceRow(height, l) * width * 2
  }

  /** The line slice [start, start + width*2) lies inside a buffer of
      height*width*2 bytes for both supported heights. */
  lemma SliceInBuffer(height: int, width: nat, l: int)
    requires height == 96 || height == 128
    requires 0 <= l < SCAN_LINES
    ensures 0 <= RowStart(height, width, l)
    ensures RowStart(height, width, l) + width * 2 <= height * width * 2
  {
    var row := SourceRow(height, l);
    MulMonotone(row + 1, height, width * 2);
    assert RowStart(height, width, l) == row * (width * 2);
    assert height * width * 2 == height * (width * 2);
  }
}
