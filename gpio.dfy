/**
 * The LPC17xx pin configuration registers `gpio_init` and `atest_init`
 * store to, as a record of 32-bit words, and the stores' effect on them.
 * The pin masks (`PIN_USRLED`, `PIN_CSN`, ...) are board constants kept
 * abstract.
 */
module Gpio {
  import opened Words

  datatype Registers = Registers(
    pinsel0: Word, pinsel1: Word, pinsel2: Word, pinsel3: Word, pinsel4: Word,
    pinsel7: Word, pinsel8: Word, pinsel9: Word, pinsel10: Word,
    fio0dir: Word, fio1dir: Word, fio2dir: Word, fio3dir: Word, fio4dir: Word,
    fio0pin: Word, fio1pin: Word, fio2pin: Word, fio3pin: Word, fio4pin: Word,
    pinmode1: Word)

  /** The pin masks of the board: one bit set per pin, in the pin's port word. */
  datatype PinMasks = PinMasks(
    usrLed: Word,                                                    // port 0
    cc3v3: Word, rx: Word, tx: Word, csn: Word, sclk: Word, mosi: Word,
    cc1v8: Word, btgr: Word,                                         // port 1
    rxLed: Word, txLed: Word)                                        // port 4

  /** The outputs of port 1: `PIN_CC3V3 | PIN_RX | ... | PIN_BTGR`. */
  function Port1Outputs(m: PinMasks): (w: Word)
  {
    Or(Or(Or(Or(Or(Or(Or(m.cc3v3, m.rx), m.tx), m.csn), m.sclk), m.mosi), m.cc1v8), m.btgr)
  }

  /** A port 1 pin is an output exactly when it is one of the CC2400's control and supply pins. */
  lemma Port1OutputsBits(m: PinMasks, j: nat)
    requires j < 32
    ensures Bit(Port1Outputs(m), j) <==>
            Bit(m.cc3v3, j) || Bit(m.rx, j) || Bit(m.tx, j) || Bit(m.csn, j) ||
            Bit(m.sclk, j) || Bit(m.mosi, j) || Bit(m.cc1v8, j) || Bit(m.btgr, j)
  {
    var o1 := Or(m.cc3v3, m.rx);
    var o2 := Or(o1, m.tx);
    var o3 := Or(o2, m.csn);
    var o4 := Or(o3, m.sclk);
    var o5 := Or(o4, m.mosi);
    var o6 := Or(o5, m.cc1v8);
    BitOr(m.cc3v3, m.rx, j);
    BitOr(o1, m.tx, j);
    BitOr(o2, m.csn, j);
    BitOr(o3, m.sclk, j);
    BitOr(o4, m.mosi, j);
    BitOr(o5, m.cc1v8, j);
    BitOr(o6, m.btgr, j);
  }

  /**
   * The safe state `gpio_init` establishes: every pin a GPIO, the board's
   * output pins (user LED; the CC2400's supply, select, clock, data and
   * switch pins; RX and TX LEDs) outputs, all other pins inputs, every
   * output low.
   */
  ghost predicate GpioSafe(m: PinMasks, r: Registers)
  {
    r.pinsel0 == Zeros(32) && r.pinsel1 == Zeros(32) && r.pinsel2 == Zeros(32) &&
    r.pinsel3 == Zeros(32) && r.pinsel4 == Zeros(32) && r.pinsel7 == Zeros(32) &&
    r.pinsel8 == Zeros(32) && r.pinsel9 == Zeros(32) && r.pinsel10 == Zeros(32) &&
    r.fio0dir == m.usrLed && r.fio1dir == Port1Outputs(m) && r.fio2dir == Zeros(32) &&
    r.fio3dir == Zeros(32) && r.fio4dir == Or(m.rxLed, m.txLed) &&
    r.fio0pin == Zeros(32) && r.fio1pin == Zeros(32) && r.fio2pin == Zeros(32) &&
    r.fio3pin == Zeros(32) && r.fio4pin == Zeros(32)
  }

  /** The registers after `gpio_init`'s stores: every register it stores to, whatever it held. */
  function AfterGpioInit(m: PinMasks, r: Registers): (r': Registers)
  {
    Registers(
      Zeros(32), Zeros(32), Zeros(32), Zeros(32), Zeros(32),
      Zeros(32), Zeros(32), Zeros(32), Zeros(32),
      m.usrLed, Port1Outputs(m), Zeros(32), Zeros(32), Or(m.rxLed, m.txLed),
      Zeros(32), Zeros(32), Zeros(32), Zeros(32), Zeros(32),
      r.pinmode1)
  }

  /**
   * `gpio_init` reaches the safe state from any state and leaves PINMODE1
   * alone; the states it leaves alone are exactly the safe ones, so calling
   * it again changes nothing.
   */
  lemma GpioInitSafe(m: PinMasks, r: Registers)
    ensures GpioSafe(m, AfterGpioInit(m, r))
    ensures AfterGpioInit(m, r).pinmode1 == r.pinmode1
    ensures AfterGpioInit(m, r) == r <==> GpioSafe(m, r)
    ensures AfterGpioInit(m, AfterGpioInit(m, r)) == AfterGpioInit(m, r)
  {}

  /** w with bits lo .. hi-1 cleared. */
  function ClearBits(w: Word, lo: nat, hi: nat): (r: Word)
    ensures forall j :: 0 <= j < 32 ==> Bit(r, j) == (!(lo <= j < hi) && Bit(w, j))
  {
    seq(32, i requires 0 <= i < 32 => if lo <= 31 - i < hi then false else w[i])
  }

  /** w with bits lo .. hi-1 set. */
  function SetBits(w: Word, lo: nat, hi: nat): (r: Word)
    ensures forall j :: 0 <= j < 32 ==> Bit(r, j) == (lo <= j < hi || Bit(w, j))
  {
    seq(32, i requires 0 <= i < 32 => if lo <= 31 - i < hi then true else w[i])
  }

  /**
   * The registers after `atest_init`: P0.25 and P0.26 (ATEST1, ATEST2)
   * switched to GPIO (PINSEL1 bits 18-21 clear) and to inputs (FIO0DIR bits
   * 25-26 clear); in PINMODE1, bits 18-19 clear and bit 20 set.
   */
  function AfterAtestInit(r: Registers): (r': Registers)
  {
    r.(pinsel1 := ClearBits(r.pinsel1, 18, 22),
       fio0dir := ClearBits(r.fio0dir, 25, 27),
       pinmode1 := SetBits(ClearBits(r.pinmode1, 18, 20), 20, 21))
  }

  /**
   * Bit by bit: `atest_init` clears PINSEL1 bits 18-21 and FIO0DIR bits
   * 25-26, clears PINMODE1 bits 18-19 and sets its bit 20, and keeps every
   * other bit of these registers and every other register.
   */
  lemma AtestInitBits(r: Registers, j: nat)
    requires j < 32
    ensures Bit(AfterAtestInit(r).pinsel1, j) == (!(18 <= j <= 21) && Bit(r.pinsel1, j))
    ensures Bit(AfterAtestInit(r).fio0dir, j) == (!(25 <= j <= 26) && Bit(r.fio0dir, j))
    ensures Bit(AfterAtestInit(r).pinmode1, j) ==
            (j == 20 || (!(18 <= j <= 20) && Bit(r.pinmode1, j)))
    ensures AfterAtestInit(r).(pinsel1 := r.pinsel1, fio0dir := r.fio0dir, pinmode1 := r.pinmode1) == r
  {}

  /** The constant 3 as a word. */
  const Three: Word := Zeros(30) + [true, true]

  /** `3 << n` has bits n and n+1 set and no others. */
  lemma ThreeShl(n: nat, j: nat)
    requires n <= 30 && j < 32
    ensures Bit(Shl(Three, n), j) == (j == n || j == n + 1)
  {
    BitShl(Three, n, j);
  }

  /** Line 86's mask: `w & ~((0x3 << 20) | (0x3 << 18))` clears bits 18-21. */
  lemma Pinsel1Mask(w: Word)
    ensures And(w, Not(Or(Shl(Three, 20), Shl(Three, 18)))) == ClearBits(w, 18, 22)
  {
    var lhs := And(w, Not(Or(Shl(Three, 20), Shl(Three, 18))));
    forall i | 0 <= i < 32
      ensures lhs[i] == ClearBits(w, 18, 22)[i]
    {
      ThreeShl(20, 31 - i);
      ThreeShl(18, 31 - i);
    }
  }

  /** Line 87's mask: `w & ~(0x3 << 25)` clears bits 25-26. */
  lemma Fio0dirMask(w: Word)
    ensures And(w, Not(Shl(Three, 25))) == ClearBits(w, 25, 27)
  {
    var lhs := And(w, Not(Shl(Three, 25)));
    forall i | 0 <= i < 32
      ensures lhs[i] == ClearBits(w, 25, 27)[i]
    {
      ThreeShl(25, 31 - i);
    }
  }

  /**
   * Lines 88-89 together: `(w | (0x3 << 19)) & ~(0x3 << 18)` clears bits
   * 18-19 and sets bit 20.
   */
  lemma Pinmode1Masks(w: Word)
    ensures And(Or(w, Shl(Three, 19)), Not(Shl(Three, 18))) == SetBits(ClearBits(w, 18, 20), 20, 21)
  {
    var lhs := And(Or(w, Shl(Three, 19)), Not(Shl(Three, 18)));
    forall i | 0 <= i < 32
      ensures lhs[i] == SetBits(ClearBits(w, 18, 20), 20, 21)[i]
    {
      ThreeShl(19, 31 - i);
      ThreeShl(18, 31 - i);
    }
  }
}
