/**
 * The board as the firmware drives it: the registers `gpio_init` and
 * `atest_init` store to, the pin events the CC2400 routines produce, and the
 * routines themselves.  The CC2400's MISO output is an oracle indexed by
 * SCLK rise, so `clocks` (the rises so far) says which level the next
 * sample reads.
 */
module Ubertooth {
  import opened Words
  import opened Bus
  import opened Cc2400
  import opened Gpio

  /**
   * One round of `cc2400_spi`'s loop on the word: after k rounds, `data &
   * msb` tests the k-th bit to send, and `data <<= 1` followed by setting
   * bit 0 to the level read moves one bit of data out and one level in.
   */
  lemma ShiftIn(data: Word, len: nat, k: nat, s: seq<bool>, d: Word)
    requires 1 <= len <= 32 && k < len && |s| == k && d == data[k..] + s
    ensures Bit(d, len - 1) == data[32 - len..][k]
    ensures d[1..] + [false] == data[k + 1..] + (s + [false])
    ensures (d[1..] + [false])[..31] + [true] == data[k + 1..] + (s + [true])
  {
    assert d[32 - len] == data[k..][32 - len];
  }

  lemma TakeSnoc(xs: seq<bool>, k: nat)
    requires k < |xs|
    ensures xs[..k + 1] == xs[..k] + [xs[k]]
  {}

  lemma Assoc(x: seq<Event>, y: seq<Event>, z: seq<Event>)
    ensures x + y + z == x + (y + z)
  {}

  /** The six pin events of `cc2400_spi`'s loop body make one round. */
  lemma SixEvents(t1: seq<Event>, o: bool, level: bool, t2: seq<Event>)
    requires t2 == t1 + [Event.Drive(Mosi, o)] + [Delay] + [Event.Drive(Sclk, true)] +
                  [Sample(level)] + [Delay] + [Event.Drive(Sclk, false)]
    ensures t2 == t1 + Round(o, level)
  {}

  /** The pin events of a round added to those of the rounds before it. */
  lemma RoundStep(t0: seq<Event>, pre: seq<bool>, s: seq<bool>, o: bool, level: bool,
                  pre1: seq<bool>, t1: seq<Event>, t2: seq<Event>)
    requires |pre| == |s| && pre1 == pre + [o]
    requires t1 == t0 + [Event.Drive(Csn, false)] + Rounds(pre, s)
    requires t2 == t1 + Round(o, level)
    ensures t2 == t0 + [Event.Drive(Csn, false)] + Rounds(pre1, s + [level])
  {
    RoundsSnoc(pre, s, o, level);
    Assoc(t0 + [Event.Drive(Csn, false)], Rounds(pre, s), Round(o, level));
  }

  /**
   * The word through one round of `cc2400_spi`'s loop: `data & msb` is the
   * next bit to send, and shifting left and or-ing in the level read moves
   * that bit out and the level in.
   */
  lemma RoundBits(data: Word, len: nat, k: nat, s: seq<bool>, d: Word, level: bool, d2: Word)
    requires 1 <= len <= 32 && k < len && |s| == k && d == data[k..] + s
    requires d2 == if level then Or(Shl(d, 1), One(32)) else Shl(d, 1)
    ensures Nonzero(And(d, Shl(One(32), len - 1))) == data[32 - len..][k]
    ensures d2 == data[k + 1..] + (s + [level])
  {
    MaskTest(d, len - 1);
    ShlOne(d);
    OrOne(Shl(d, 1));
    ShiftIn(data, len, k, s, d);
  }

  /** One pass of `cc2400_spi`'s loop keeps its invariants. */
  lemma Advance(data: Word, len: nat, miso: nat -> bool, c0: nat, t0: seq<Event>, sent: seq<bool>,
                k: nat, ins: seq<bool>, d1: Word, level: bool, d: Word, t1: seq<Event>, t2: seq<Event>)
    requires 1 <= len <= 32 && k < len && sent == data[32 - len..]
    requires ins == Samples(miso, c0, k) && level == miso(c0 + k)
    requires d1 == data[k..] + ins
    requires d == if level then Or(Shl(d1, 1), One(32)) else Shl(d1, 1)
    requires t1 == t0 + [Event.Drive(Csn, false)] + Rounds(sent[..k], ins)
    requires t2 == t1 + Round(Nonzero(And(d1, Shl(One(32), len - 1))), level)
    ensures ins + [level] == Samples(miso, c0, k + 1)
    ensures d == data[k + 1..] + (ins + [level])
    ensures t2 == t0 + [Event.Drive(Csn, false)] + Rounds(sent[..k + 1], ins + [level])
  {
    SamplesNext(miso, c0, k, ins, level);
    RoundBits(data, len, k, ins, d1, level, d);
    TakeSnoc(sent, k);
    RoundStep(t0, sent[..k], ins, sent[k], level, sent[..k + 1], t1, t2);
  }

  lemma SamplesNext(miso: nat -> bool, c: nat, k: nat, ins: seq<bool>, level: bool)
    requires ins == Samples(miso, c, k) && level == miso(c + k)
    ensures ins + [level] == Samples(miso, c, k + 1)
  {
    SamplesSnoc(miso, c, k);
  }

  lemma Assoc4(a: seq<Event>, b: seq<Event>, c: seq<Event>, d: seq<Event>, e: seq<Event>)
    ensures a + b + c + d + e == a + (b + c + (d + e))
  {}

  /** The pin events of a whole transaction. */
  lemma FrameEnd(t0: seq<Event>, sent: seq<bool>, s: seq<bool>, t: seq<Event>)
    requires |s| == |sent|
    requires t == t0 + [Event.Drive(Csn, false)] + Rounds(sent, s) + [Delay] + [Event.Drive(Csn, true)]
    ensures t == t0 + Frame(sent, s)
  {
    Assoc4(t0, [Event.Drive(Csn, false)], Rounds(sent, s), [Delay], [Event.Drive(Csn, true)]);
    assert [Delay] + [Event.Drive(Csn, true)] == [Delay, Event.Drive(Csn, true)];
  }

  /** The pin events of `cc2400_init` after `atest_init`, which add no SCLK rise. */
  lemma PowerUpEnd(t0: seq<Event>, t: seq<Event>)
    requires t == t0 + [Configure] + [Event.Drive(Cc1v8, true)] + [Delay] + [Event.Drive(Csn, true)] + [Event.Drive(Cc3v3, true)]
    ensures t == t0 + PowerUp && Rises(t) == Rises(t0)
  {
    PowerUpOrder();
    RisesAppend(t0, PowerUp);
  }

  lemma JoinStep(p: seq<Access>, a: Access, frame: (Access, nat) -> seq<Event>, c: nat,
                 t0: seq<Event>, t1: seq<Event>, t2: seq<Event>)
    requires t1 == t0 + Join(p, frame, c)
    requires t2 == t1 + Join([a], frame, c + Clocks(p))
    ensures t2 == t0 + Join(p + [a], frame, c)
  {
    JoinAppend(p, [a], frame, c);
    Assoc(t0, Join(p, frame, c), Join([a], frame, c + Clocks(p)));
  }

  /** The trace added while the log grew by extra is the join of extra. */
  lemma JoinExtends(base: seq<Event>, l0: seq<Access>, extra: seq<Access>,
                    frame: (Access, nat) -> seq<Event>, start: nat, c: nat, t0: seq<Event>, t1: seq<Event>)
    requires c == start + Clocks(l0)
    requires t0 == base + Join(l0, frame, start)
    requires t1 == base + Join(l0 + extra, frame, start)
    ensures t1 == t0 + Join(extra, frame, c)
  {
    JoinAppend(l0, extra, frame, start);
    Assoc(base, Join(l0, frame, start), Join(extra, frame, start + Clocks(l0)));
  }

  /** A poll that misses is not the first echo, so more polls follow. */
  lemma NotYet(miso: nat -> bool, c: nat, want: Half, k: nat, v: Half)
    requires Echoes(miso, c, want) && k <= FirstEcho(miso, c, want)
    requires v == PollValue(miso, c, k) && v != want
    ensures k < FirstEcho(miso, c, want)
  {}

  /** A poll that hits, at or before the first echo, is the first echo. */
  lemma Found(miso: nat -> bool, c: nat, want: Half, k: nat, v: Half)
    requires Echoes(miso, c, want) && k <= FirstEcho(miso, c, want)
    requires v == PollValue(miso, c, k) && v == want
    ensures k == FirstEcho(miso, c, want)
  {}

  lemma LogSnoc(l1: seq<Access>, p: seq<Access>, l: seq<Access>, r: Access, l2: seq<Access>, p2: seq<Access>)
    requires l == l1 + p && l2 == l + [r] && p2 == p + [r]
    ensures l2 == l1 + p2
  {}

  /** Poll k of a run from rise c is the read whose first rise is c + 24k. */
  lemma PollAt(miso: nat -> bool, c: nat, k: nat, ck: nat)
    requires ck == c + 24 * k
    ensures PollValue(miso, c, k) == Samples(miso, ck, 24)[8..]
  {}

  /**
   * Where each access carries the frame AccessFrame gives it, the join of a
   * log is its wire.
   */
  lemma {:induction false} JoinIsWire(log: seq<Access>, frame: (Access, nat) -> seq<Event>,
                                       miso: nat -> bool, c: nat)
    requires forall a, k {:trigger AccessFrame(a, miso, k)} :: frame(a, k) == AccessFrame(a, miso, k)
    ensures Join(log, frame, c) == Wire(log, miso, c)
  {
    if log != [] {
      JoinIsWire(log[1..], frame, miso, c + Width(log[0]));
      assert frame(log[0], c) == AccessFrame(log[0], miso, c);
    }
  }

  /** The write and the polls of one half of the reset, logged one after the other. */
  lemma HandshakeGlue(main: Byte, miso: nat -> bool, v: Half, c0: nat, c1: nat,
                      l0: seq<Access>, l1: seq<Access>, l: seq<Access>)
    requires Settles(miso, c0, v) && c1 == c0 + 24
    requires l1 == l0 + [Wrote(main, Widen(v, 32))]
    requires l == l1 + Polls(main, miso, c1, FirstEcho(miso, c1, v) + 1)
    ensures l == l0 + HandshakeLog(main, miso, c0, v)
  {}

  lemma Glue(l0: seq<Access>, h0: seq<Access>, h1: seq<Access>, l: seq<Access>, run: seq<Access>)
    requires l == l0 + h0 + h1 && run == h0 + h1
    ensures l == l0 + run
  {}

  class Board {
    /** The pin masks of `ubertooth.h`. */
    const masks: PinMasks
    /** The address of the CC2400's MAIN register (a 7-bit address). */
    const main: Byte
    /** The level MISO shows at each SCLK rise. */
    const miso: nat -> bool
    /** The pin events of each access: AccessFrame, as Framed says. */
    ghost const frame: (Access, nat) -> seq<Event>

    var regs: Registers
    var trace: seq<Event>
    var clocks: nat
    /**
     * Proof devices: the register accesses made since the last power-up,
     * and the trace and rise count at that power-up.
     */
    ghost var log: seq<Access>
    ghost var base: seq<Event>
    ghost var start: nat

    /** Every SCLK rise reads the next level of the oracle: the rises in the trace are the clocks. */
    ghost predicate Clocked()
      reads this
    {
      Rises(trace) == clocks
    }

    /** The frame of access a whose first rise is rise c is the one its SPI transaction puts on the pins. */
    ghost predicate Framed()
    {
      forall a, c {:trigger AccessFrame(a, miso, c)} :: frame(a, c) == AccessFrame(a, miso, c)
    }

    /** Each SCLK rise since power-up belongs to a logged access, so the rises in the trace are the clocks. */
    lemma ValidClocked()
      requires Valid()
      ensures Clocked()
    {
      forall a, k: nat
        ensures Rises(frame(a, k)) == Width(a)
      {
        assert frame(a, k) == AccessFrame(a, miso, k);
        FrameRises(Sent(a), Samples(miso, k, Width(a)));
      }
      JoinRises(log, frame, start);
      RisesAppend(base, Join(log, frame, start));
    }

    /** Between register accesses, the trace since the last power-up is the wire of the accesses logged. */
    lemma ValidWire()
      requires Valid()
      ensures trace == base + Wire(log, miso, start)
    {
      JoinIsWire(log, frame, miso, start);
    }

    /** Between register accesses, every bus event since the last power-up happens with the chip selected. */
    lemma ValidGuarded()
      requires Valid()
      ensures Guarded(trace[|base|..])
    {
      ValidWire();
      assert trace[|base|..] == Wire(log, miso, start);
      WireGuarded(log, miso, start);
    }

    /**
     * Between register accesses: the trace since the last power-up is the
     * frames of the accesses logged, in order.
     */
    ghost predicate Valid()
      reads this
    {
      !main[0] && Framed() && Rises(base) == start && trace == base + Join(log, frame, start) &&
      clocks == start + Clocks(log)
    }

    constructor (masks: PinMasks, main: Byte, miso: nat -> bool, regs: Registers)
      requires !main[0]
      ensures Valid()
      ensures this.masks == masks && this.main == main && this.miso == miso && this.regs == regs
      ensures trace == [] && clocks == 0 && log == []
    {
      this.masks, this.main, this.miso, this.regs := masks, main, miso, regs;
      frame := Framer(miso);
      trace, clocks, log, base, start := [], 0, [], [], 0;
    }

    /** A `*_SET` or `*_CLR` macro. */
    method Drive(pin: Pin, high: bool)
      modifies this
      ensures trace == old(trace) + [Event.Drive(pin, high)]
      ensures clocks == old(clocks) && regs == old(regs)
      ensures log == old(log) && base == old(base) && start == old(start)
    {
      trace := trace + [Event.Drive(pin, high)];
    }

    /** `spi_delay()` and `wait(seconds)`: a busy wait, of no effect but the time it takes. */
    method Pause()
      modifies this
      ensures trace == old(trace) + [Delay]
      ensures clocks == old(clocks) && regs == old(regs)
      ensures log == old(log) && base == old(base) && start == old(start)
    {
      trace := trace + [Delay];
    }

    /** The `MISO` macro, read just after an SCLK rise. */
    method ReadMiso() returns (level: bool)
      modifies this
      ensures level == miso(old(clocks))
      ensures trace == old(trace) + [Sample(level)]
      ensures clocks == old(clocks) + 1 && regs == old(regs)
      ensures log == old(log) && base == old(base) && start == old(start)
    {
      level := miso(clocks);
      trace := trace + [Sample(level)];
      clocks := clocks + 1;
    }

    /**
     * The pin events of one bit of `cc2400_spi`: out on MOSI, a delay, SCLK
     * up, MISO read, a delay, SCLK down.
     */
    method Clock(out: bool) returns (level: bool)
      modifies this
      ensures level == miso(old(clocks))
      ensures trace == old(trace) + Round(out, level)
      ensures clocks == old(clocks) + 1 && regs == old(regs)
      ensures log == old(log) && base == old(base) && start == old(start)
    {
      ghost var t1 := trace;
      if out {
        Drive(Mosi, true);
      } else {
        Drive(Mosi, false);
      }
      Pause();
      Drive(Sclk, true);
      level := ReadMiso();
      Pause();
      Drive(Sclk, false);
      SixEvents(t1, out, level, trace);
    }

    /**
     * `cc2400_spi(len, data)`: one transaction of len bits.  It sends data's
     * low len bits, most significant first, and returns `(data << len) | s`
     * where s are the len levels read, first one most significant.
     */
    method Spi(len: nat, data: Word) returns (r: Word)
      requires 1 <= len <= 32
      modifies this
      ensures r == SpiResult(len, data, Samples(miso, old(clocks), len))
      ensures r == data[len..] + Samples(miso, old(clocks), len)
      ensures trace == old(trace) + Frame(data[32 - len..], Samples(miso, old(clocks), len))
      ensures clocks == old(clocks) + len && regs == old(regs)
      ensures log == old(log) && base == old(base) && start == old(start)
    {
      ghost var c0, t0, sent := clocks, trace, data[32 - len..];
      var msb := Shl(One(32), len - 1);
      Drive(Csn, false);
      var d := data;
      var n := len;
      ghost var k: nat, ins: seq<bool> := 0, [];
      while n > 0
        invariant k + n == len && clocks == c0 + k
        invariant ins == Samples(miso, c0, k)
        invariant d == data[k..] + ins
        invariant trace == t0 + [Event.Drive(Csn, false)] + Rounds(sent[..k], ins)
        invariant regs == old(regs) && log == old(log) && base == old(base) && start == old(start)
      {
        ghost var t1, d1 := trace, d;
        n := n - 1;
        var bit := Nonzero(And(d, msb));
        d := Shl(d, 1);
        var level := Clock(bit);
        if level {
          d := Or(d, One(32));
        }
        Advance(data, len, miso, c0, t0, sent, k, ins, d1, level, d, t1, trace);
        k, ins := k + 1, ins + [level];
      }
      Pause();
      Drive(Csn, true);
      r := d;
      SpiResultBits(len, data, ins);
      assert sent[..k] == sent;
      FrameEnd(t0, sent, ins, trace);
    }

    /**
     * `cc2400_get(reg)`: a 24-bit read of reg, returning the last 16 bits
     * read.
     */
    method Get(reg: Byte) returns (val: Half)
      requires Valid()
      modifies this
      ensures Valid()
      ensures val == Samples(miso, old(clocks), 24)[8..]
      ensures log == old(log) + [Read(reg, val)]
      ensures trace == old(trace) + frame(Read(reg, val), old(clocks))
      ensures clocks == old(clocks) + 24 && regs == old(regs)
      ensures base == old(base) && start == old(start)
    {
      ghost var t1, c1 := trace, clocks;
      var out := ReadFrame(reg);
      var got := Spi(24, out);
      val := Low(got, 16);
      GetResult(reg, Samples(miso, c1, 24));
      assert frame(Read(reg, val), c1) == AccessFrame(Read(reg, val), miso, c1);
      Logged(Read(reg, val), t1, c1);
    }

    /** `cc2400_set(reg, val)`: a 24-bit write of `(reg << 16) | val`. */
    method Set(reg: Byte, val: Word)
      requires Valid()
      modifies this
      ensures Valid()
      ensures log == old(log) + [Wrote(reg, val)]
      ensures trace == old(trace) + frame(Wrote(reg, val), old(clocks))
      ensures clocks == old(clocks) + 24 && regs == old(regs)
      ensures base == old(base) && start == old(start)
    {
      ghost var t1, c1 := trace, clocks;
      var out := WriteFrame(reg, val);
      var _ := Spi(24, out);
      assert frame(Wrote(reg, val), c1) == AccessFrame(Wrote(reg, val), miso, c1);
      Logged(Wrote(reg, val), t1, c1);
    }

    /** `cc2400_status()`: an 8-bit transaction sending zeros; returns the 8 bits read. */
    method Status() returns (st: Byte)
      requires Valid()
      modifies this
      ensures Valid()
      ensures st == Samples(miso, old(clocks), 8)
      ensures log == old(log) + [StatusRead(st)]
      ensures trace == old(trace) + frame(StatusRead(st), old(clocks))
      ensures clocks == old(clocks) + 8 && regs == old(regs)
      ensures base == old(base) && start == old(start)
    {
      ghost var t1, c1 := trace, clocks;
      var got := Spi(8, Zeros(32));
      st := Low(got, 8);
      StatusResult(Samples(miso, c1, 8));
      assert Zeros(32)[24..] == Zeros(8);
      assert frame(StatusRead(st), c1) == AccessFrame(StatusRead(st), miso, c1);
      Logged(StatusRead(st), t1, c1);
    }

    /** `cc2400_strobe(reg)`: an 8-bit transaction sending reg; returns the 8 bits read. */
    method Strobe(reg: Byte) returns (st: Byte)
      requires Valid()
      modifies this
      ensures Valid()
      ensures st == Samples(miso, old(clocks), 8)
      ensures log == old(log) + [Strobed(reg, st)]
      ensures trace == old(trace) + frame(Strobed(reg, st), old(clocks))
      ensures clocks == old(clocks) + 8 && regs == old(regs)
      ensures base == old(base) && start == old(start)
    {
      ghost var t1, c1 := trace, clocks;
      var got := Spi(8, Widen(reg, 32));
      st := Low(got, 8);
      StrobeResult(reg, Samples(miso, c1, 8));
      assert frame(Strobed(reg, st), c1) == AccessFrame(Strobed(reg, st), miso, c1);
      Logged(Strobed(reg, st), t1, c1);
    }

    /** Records a transaction that has just put the frame of a on the wire. */
    ghost method Logged(a: Access, t1: seq<Event>, c1: nat)
      requires !main[0] && Framed() && Rises(base) == start
      requires t1 == base + Join(log, frame, start) && c1 == start + Clocks(log)
      requires trace == t1 + frame(a, c1) && clocks == c1 + Width(a)
      modifies this
      ensures Valid()
      ensures log == old(log) + [a]
      ensures trace == old(trace) && clocks == old(clocks) && regs == old(regs)
      ensures base == old(base) && start == old(start)
    {
      JoinOne(a, frame, c1);
      JoinStep(log, a, frame, start, base, t1, trace);
      ClocksSnoc(log, a);
      log := log + [a];
    }

    /** One of `cc2400_reset`'s loops: read MAIN until a read returns want. */
    method AwaitMain(want: Half)
      requires Valid() && Echoes(miso, clocks, want)
      modifies this
      ensures Valid()
      ensures log == old(log) + Polls(main, miso, old(clocks), FirstEcho(miso, old(clocks), want) + 1)
      ensures clocks == old(clocks) + 24 * (FirstEcho(miso, old(clocks), want) + 1)
      ensures regs == old(regs) && base == old(base) && start == old(start)
    {
      ghost var c1, l1 := clocks, log;
      ghost var first := FirstEcho(miso, c1, want);
      var v := Get(main);
      PollAt(miso, c1, 0, c1);
      ghost var k: nat := 0;
      assert Polls(main, miso, c1, 1) == [Read(main, v)];
      while v != want
        invariant Valid() && regs == old(regs) && base == old(base) && start == old(start)
        invariant k <= first && v == PollValue(miso, c1, k)
        invariant clocks == c1 + 24 * (k + 1)
        invariant log == l1 + Polls(main, miso, c1, k + 1)
        decreases first - k
      {
        ghost var cb, lb := clocks, log;
        NotYet(miso, c1, want, k, v);
        v := Get(main);
        PollAt(miso, c1, k + 1, cb);
        PollsSnoc(main, miso, c1, k + 1);
        LogSnoc(l1, Polls(main, miso, c1, k + 1), lb, Read(main, v), log, Polls(main, miso, c1, k + 2));
        k := k + 1;
      }
      Found(miso, c1, want, k, v);
    }

    /** One half of `cc2400_reset`: write v to MAIN, then read MAIN until it reads v. */
    method Handshake(v: Half)
      requires Valid() && Settles(miso, clocks, v)
      modifies this
      ensures Valid()
      ensures log == old(log) + HandshakeLog(main, miso, old(clocks), v)
      ensures clocks == HandshakeEnd(miso, old(clocks), v)
      ensures regs == old(regs) && base == old(base) && start == old(start)
    {
      ghost var c0, l0 := clocks, log;
      Set(main, Widen(v, 32));
      ghost var c1, l1 := clocks, log;
      AwaitMain(v);
      HandshakeGlue(main, miso, v, c0, c1, l0, l1, log);
      HandshakeClocks(main, miso, c0, v);
    }

    /**
     * `cc2400_reset`: write 0 to MAIN, read it until it reads 0, write
     * 0x8000, read it until it reads 0x8000.  Its loops end only if the chip
     * echoes both values, which the precondition states.
     */
    method Reset()
      requires Valid() && ResetEnds(miso, clocks)
      modifies this
      ensures Valid()
      ensures log == old(log) + ResetLog(main, miso, old(clocks))
      ensures trace == old(trace) + Join(ResetLog(main, miso, old(clocks)), frame, old(clocks))
      ensures clocks == old(clocks) + 24 * |ResetLog(main, miso, old(clocks))|
      ensures regs == old(regs)
    {
      ghost var c0, t0, l0 := clocks, trace, log;
      ghost var c1 := HandshakeEnd(miso, c0, Zeros(16));
      ghost var h0 := HandshakeLog(main, miso, c0, Zeros(16));
      Handshake(Zeros(16));
      ghost var h1 := HandshakeLog(main, miso, c1, Hex8000);
      Handshake(Hex8000);
      ghost var run := ResetLog(main, miso, c0);
      Glue(l0, h0, h1, log, run);
      JoinExtends(base, l0, run, frame, start, c0, t0, trace);
      HandshakeClocks(main, miso, c0, Zeros(16));
      HandshakeClocks(main, miso, c1, Hex8000);
      ClocksAppend(h0, h1);
    }

    /** The mark a routine's register stores leave in the trace; it is no SCLK rise. */
    method Store()
      modifies this
      ensures trace == old(trace) + [Configure]
      ensures clocks == old(clocks) && regs == old(regs)
      ensures log == old(log) && base == old(base) && start == old(start)
      ensures old(Clocked()) ==> Clocked()
    {
      RisesAppend(trace, [Configure]);
      RisesOne(Configure);
      trace := trace + [Configure];
    }

    /** `gpio_init`: the stores of lines 41-64, in order. */
    method GpioInit()
      modifies this
      ensures regs == AfterGpioInit(masks, old(regs))
      ensures trace == old(trace) + [Configure] && clocks == old(clocks) && log == old(log)
      ensures base == old(base) && start == old(start)
      ensures old(Clocked()) ==> Clocked()
    {
      Store();
      regs := regs.(pinsel0 := Zeros(32));
      regs := regs.(pinsel1 := Zeros(32));
      regs := regs.(pinsel2 := Zeros(32));
      regs := regs.(pinsel3 := Zeros(32));
      regs := regs.(pinsel4 := Zeros(32));
      regs := regs.(pinsel7 := Zeros(32));
      regs := regs.(pinsel8 := Zeros(32));
      regs := regs.(pinsel9 := Zeros(32));
      regs := regs.(pinsel10 := Zeros(32));
      regs := regs.(fio0dir := masks.usrLed);
      regs := regs.(fio1dir := Or(Or(Or(Or(Or(Or(Or(masks.cc3v3, masks.rx), masks.tx), masks.csn),
                                                 masks.sclk), masks.mosi), masks.cc1v8), masks.btgr));
      regs := regs.(fio2dir := Zeros(32));
      regs := regs.(fio3dir := Zeros(32));
      regs := regs.(fio4dir := Or(masks.rxLed, masks.txLed));
      regs := regs.(fio0pin := Zeros(32));
      regs := regs.(fio1pin := Zeros(32));
      regs := regs.(fio2pin := Zeros(32));
      regs := regs.(fio3pin := Zeros(32));
      regs := regs.(fio4pin := Zeros(32));
    }

    /** `ubertooth_init`: for now only `gpio_init`. */
    method UbertoothInit()
      modifies this
      ensures regs == AfterGpioInit(masks, old(regs))
      ensures trace == old(trace) + [Configure] && clocks == old(clocks) && log == old(log)
      ensures base == old(base) && start == old(start)
      ensures old(Clocked()) ==> Clocked()
    {
      GpioInit();
    }

    /** `atest_init`: the read-modify-write stores of lines 86-89. */
    method AtestInit()
      modifies this
      ensures regs == AfterAtestInit(old(regs))
      ensures trace == old(trace) + [Configure] && clocks == old(clocks) && log == old(log)
      ensures base == old(base) && start == old(start)
      ensures old(Clocked()) ==> Clocked()
    {
      Store();
      Pinsel1Mask(regs.pinsel1);
      regs := regs.(pinsel1 := And(regs.pinsel1, Not(Or(Shl(Three, 20), Shl(Three, 18)))));
      Fio0dirMask(regs.fio0dir);
      regs := regs.(fio0dir := And(regs.fio0dir, Not(Shl(Three, 25))));
      Pinmode1Masks(regs.pinmode1);
      regs := regs.(pinmode1 := Or(regs.pinmode1, Shl(Three, 19)));
      regs := regs.(pinmode1 := And(regs.pinmode1, Not(Shl(Three, 18))));
    }

    /** `cc2400_init`: `atest_init`, then the power-up pin sequence; the access log starts afresh. */
    method Cc2400Init()
      requires !main[0] && Framed() && Clocked()
      modifies this
      ensures Valid()
      ensures regs == AfterAtestInit(old(regs))
      ensures trace == old(trace) + PowerUp
      ensures clocks == old(clocks) && log == [] && base == trace && start == clocks
    {
      AtestInit();
      Drive(Cc1v8, true);
      Pause();
      Drive(Csn, true);
      Drive(Cc3v3, true);
      PowerUpEnd(old(trace), trace);
      log, base, start := [], trace, clocks;
    }
  }

  /**
   * The boot order the file foresees: `gpio_init` very early (lines
   * 31-34), then `cc2400_init` (the call at line 73).  Then one
   * `cc2400_status`, which the source does not make at boot, to show that
   * register accesses can follow.  The board is left valid, with the
   * registers both routines set, their events and the power-up in the
   * trace, the access as the first one logged, and every bus event of the
   * trace made with the chip selected.
   */
  method Boot(masks: PinMasks, main: Byte, miso: nat -> bool, regs: Registers) returns (b: Board, st: Byte)
    requires !main[0]
    ensures fresh(b) && b.Valid() && b.miso == miso
    ensures b.regs == AfterAtestInit(AfterGpioInit(masks, regs))
    ensures st == Samples(miso, 0, 8) && b.log == [StatusRead(st)]
    ensures b.trace == [Configure] + PowerUp + AccessFrame(StatusRead(st), miso, 0)
    ensures b.clocks == 8
    ensures Guarded(b.trace)
  {
    b := new Board(masks, main, miso, regs);
    b.ValidClocked();
    b.GpioInit();
    b.Cc2400Init();
    st := b.Status();
    assert b.frame(StatusRead(st), 0) == AccessFrame(StatusRead(st), miso, 0);
    FrameGuarded(Sent(StatusRead(st)), Samples(miso, 0, 8));
    assert Guarded([Configure] + PowerUp);
    GuardedAppend([Configure] + PowerUp, AccessFrame(StatusRead(st), miso, 0));
  }
}
