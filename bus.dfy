/** The hardware the SSD1339 driver talks to: three GPIO lines (chip select,
    data/command, reset), an SPI bus with a blocking write, millisecond sleeps
    and the caller's optional bus-reconfiguration callback. None of it is part
    of the driver; here it is reduced to the sequence of events the driver
    causes, and to what a device on the bus receives from that sequence. */
module Bus {

  /** A logic level written to a GPIO line (MicroPython pins take 0 or 1). */
  type Bit = x: int | 0 <= x <= 1

  datatype Option<T> = None | Some(value: T)

  /** The three output lines; DataCommand high means data, low means command. */
  datatype Pin = ChipSelect | DataCommand | Reset

  datatype Event =
    | SetPin(pin: Pin, level: Bit)      // pincs(v), pindc(v), pinrs(v)
    | Sleep(ms: nat)                    // utime.sleep_ms(ms)
    | BusCallback                       // init_spi(spi), the caller's callback
    | SpiWrite(data: seq<bv8>)          // spi.write(data)

  /** One SPI write as the bus sees it: the bytes, and the chip-select and
      data/command levels in force while they were clocked out (None when the
      line had not been driven yet). */
  datatype Transfer = Transfer(cs: Option<Bit>, dc: Option<Bit>, data: seq<bv8>)

  /** The level a line was last driven to in trace t. */
  function LastLevel(t: seq<Event>, pin: Pin): Option<Bit>
  {
    if t == [] then None
    else if t[|t| - 1].SetPin? && t[|t| - 1].pin == pin then Some(t[|t| - 1].level)
    else LastLevel(t[..|t| - 1], pin)
  }

  /** Every SPI write of trace t, in order, with the line levels in force. */
  function Transfers(t: seq<Event>): seq<Transfer>
  {
    if t == [] then []
    else
      var h, e := t[..|t| - 1], t[|t| - 1];
      Transfers(h) + if e.SpiWrite? then [Transfer(LastLevel(h, ChipSelect), LastLevel(h, DataCommand), e.data)] else []
  }

  /** No event of t drives the given line. */
  ghost predicate Untouched(t: seq<Event>, pin: Pin)
  {
    forall i :: 0 <= i < |t| ==> !(t[i].SetPin? && t[i].pin == pin)
  }

  /** Concatenation is associative (stated once, used where the solver would
      otherwise have to rediscover it element by element). */
  lemma Assoc<T>(a: seq<T>, b: seq<T>, c: seq<T>)
    ensures (a + b) + c == a + (b + c)
  {
  }

  /** Appending one event: a line's level changes only if the event drives it. */
  lemma LastLevelSnoc(t: seq<Event>, e: Event, pin: Pin)
    ensures LastLevel(t + [e], pin) == if e.SetPin? && e.pin == pin then Some(e.level) else LastLevel(t, pin)
  {
    assert (t + [e])[..|t|] == t;
  }

  /** Appending one event adds a transfer exactly when the event is an SPI write. */
  lemma TransfersSnoc(t: seq<Event>, e: Event)
    ensures Transfers(t + [e]) == Transfers(t) + if e.SpiWrite? then [Transfer(LastLevel(t, ChipSelect), LastLevel(t, DataCommand), e.data)] else []
  {
    assert (t + [e])[..|t|] == t;
  }

  /** No event of t is an SPI write. */
  ghost predicate Quiet(t: seq<Event>)
  {
    forall i :: 0 <= i < |t| ==> !t[i].SpiWrite?
  }

  /** Events without SPI writes add no transfer. */
  lemma {:induction false} TransfersQuiet(t: seq<Event>, u: seq<Event>)
    requires Quiet(u)
    ensures Transfers(t + u) == Transfers(t)
  {
    if u != [] {
      var u', e := u[..|u| - 1], u[|u| - 1];
      assert u == u' + [e];
      Assoc(t, u', [e]);
      TransfersSnoc(t + u', e);
      assert Quiet(u') by {
        forall i | 0 <= i < |u'| ensures !u'[i].SpiWrite? {
          assert u'[i] == u[i];
        }
      }
      TransfersQuiet(t, u');
    } else {
      assert t + u == t;
    }
  }

  /** A prefix of events that do not drive a line does not drive it either. */
  lemma UntouchedPrefix(u: seq<Event>, k: nat, pin: Pin)
    requires Untouched(u, pin) && k <= |u|
    ensures Untouched(u[..k], pin)
  {
    forall i | 0 <= i < k
      ensures !(u[..k][i].SetPin? && u[..k][i].pin == pin)
    {
      assert u[..k][i] == u[i];
    }
  }

  /** Events that do not drive a line leave its level as it was. */
  lemma {:induction false} LastLevelUntouched(t: seq<Event>, u: seq<Event>, pin: Pin)
    requires Untouched(u, pin)
    ensures LastLevel(t + u, pin) == LastLevel(t, pin)
  {
    if u != [] {
      var u', e := u[..|u| - 1], u[|u| - 1];
      assert u == u' + [e];
      assert t + u == (t + u') + [e];
      LastLevelSnoc(t + u', e, pin);
      assert Untouched(u', pin) by {
        forall i | 0 <= i < |u'| ensures !(u'[i].SetPin? && u'[i].pin == pin) {
          assert u'[i] == u[i];
        }
      }
      LastLevelUntouched(t, u', pin);
    } else {
      assert t + u == t;
    }
  }

  /** The driver's view of the pins and the bus: every call appends its event
      to the log and does nothing else that the driver can observe. */
  class Port {
    var log: seq<Event>

    constructor ()
      ensures log == []
    {
      log := [];
    }

    method SetChipSelect(level: Bit)
      modifies this
      ensures log == old(log) + [SetPin(ChipSelect, level)]
    {
      log := log + [SetPin(ChipSelect, level)];
    }

    method SetDataCommand(level: Bit)
      modifies this
      ensures log == old(log) + [SetPin(DataCommand, level)]
    {
      log := log + [SetPin(DataCommand, level)];
    }

    method SetReset(level: Bit)
      modifies this
      ensures log == old(log) + [SetPin(Reset, level)]
    {
      log := log + [SetPin(Reset, level)];
    }

    method SleepMs(ms: nat)
      modifies this
      ensures log == old(log) + [Sleep(ms)]
    {
      log := log + [Sleep(ms)];
    }

    method Callback()
      modifies this
      ensures log == old(log) + [BusCallback]
    {
      log := log + [BusCallback];
    }

    method Write(data: seq<bv8>)
      modifies this
      ensures log == old(log) + [SpiWrite(data)]
    {
      log := log + [SpiWrite(data)];
    }
  }
}
