/**
 * The CC2400 register access layer: the words `cc2400_get`, `cc2400_set`,
 * `cc2400_status` and `cc2400_strobe` hand to `cc2400_spi`, what they make of
 * the word it returns, and the confirm-write sequence of `cc2400_reset`
 * described as the register accesses it makes.
 *
 * A 24-bit register frame starts with a header byte whose top bit is the read
 * flag and whose low 7 bits are the register address; 16 data bits follow.
 */
module Cc2400 {
  import opened Words
  import opened Bus

  /** The constant 0x80 (the read flag) as a byte. */
  const Hex80: Byte := [true] + Zeros(7)

  /** The constant 0x8000 (the value that re-enables the chip) as 16 bits. */
  const Hex8000: Half := [true] + Zeros(15)

  lemma {:induction false} ValueZeros(n: nat)
    ensures Value(Zeros(n)) == 0
  {
    if n > 0 {
      assert Zeros(n)[..n - 1] == Zeros(n - 1);
      ValueZeros(n - 1);
    }
  }

  /** The sentinels and the read flag denote 0x0000, 0x8000 and 0x80. */
  lemma ConstantValues()
    ensures Value(Zeros(16)) == 0
    ensures Value(Hex80) == 0x80 && Value(Hex8000) == 0x8000
  {
    ValueZeros(16);
    ValueTopBit(7);
    ValueTopBit(15);
  }

  function Pow2(n: nat): (p: nat)
    ensures p >= 1
  {
    if n == 0 then 1 else 2 * Pow2(n - 1)
  }

  /** A one followed by n zeros denotes 2^n. */
  lemma {:induction false} ValueTopBit(n: nat)
    ensures Value([true] + Zeros(n)) == Pow2(n)
  {
    if n == 0 {
      assert ([true] + Zeros(0))[..0] == [];
    } else {
      assert ([true] + Zeros(n))[..n] == [true] + Zeros(n - 1);
      ValueTopBit(n - 1);
    }
  }

  /**
   * The word `cc2400_spi(len, data)` returns when it reads the bits s,
   * `(data << len) | s`: data's low 32-len bits followed by the bits read,
   * first one most significant.
   */
  function SpiResult(len: nat, data: Word, s: seq<bool>): (r: Word)
    requires 1 <= len <= 32 && |s| == len
    ensures r == data[len..] + s
  {
    ShlOrLow(data, s, len);
    Or(Shl(data, len), Widen(s, 32))
  }

  /**
   * So the returned word's low len bits are the bits read, and for
   * len = 32 it is exactly those bits.
   */
  lemma SpiResultBits(len: nat, data: Word, s: seq<bool>)
    requires 1 <= len <= 32 && |s| == len
    ensures Low(SpiResult(len, data, s), len) == s
    ensures len == 32 ==> SpiResult(len, data, s) == s
  {
    ShlOrLow(data, s, len);
  }

  /** The word `cc2400_get(reg)` sends: `(reg | 0x80) << 16`. */
  function ReadFrame(reg: Byte): (out: Word)
    ensures out == Zeros(8) + [true] + reg[1..] + Zeros(16)
  {
    var h := Or(Widen(reg, 32), Widen(Hex80, 32));
    assert h == Zeros(24) + ([true] + reg[1..]) by {
      forall i | 0 <= i < 32
        ensures h[i] == (Zeros(24) + ([true] + reg[1..]))[i]
      {
        if i >= 24 {
          assert Widen(reg, 32)[i] == reg[i - 24];
          assert Widen(Hex80, 32)[i] == Hex80[i - 24];
        }
      }
    }
    Shl(h, 16)
  }

  /** The word `cc2400_set(reg, val)` sends: `(reg << 16) | val`. */
  function WriteFrame(reg: Byte, val: Word): (out: Word)
    ensures out == val[..8] + Or(reg, val[8..16]) + val[16..]
  {
    var r := Or(Shl(Widen(reg, 32), 16), val);
    assert r == val[..8] + Or(reg, val[8..16]) + val[16..] by {
      forall i | 0 <= i < 32
        ensures r[i] == (val[..8] + Or(reg, val[8..16]) + val[16..])[i]
      {
        if 8 <= i < 16 {
          assert Widen(reg, 32)[i + 16] == reg[i - 8];
        }
      }
    }
    r
  }

  /** What a 24-bit frame asks the chip to do. */
  datatype Command =
    | ReadReg(addr: seq<bool>)
    | WriteReg(addr: seq<bool>, value: seq<bool>)

  /** The header byte's top bit selects a read, its low 7 bits the register. */
  function Decode(f: seq<bool>): (c: Command)
    requires |f| == 24
    ensures |c.addr| == 7
    ensures c.WriteReg? ==> |c.value| == 16
  {
    if f[0] then ReadReg(f[1..8]) else WriteReg(f[1..8], f[8..])
  }

  /**
   * The 24 bits a read puts on MOSI (the low 24 of the frame) ask for a read
   * of reg's low 7 bits and carry 16 zero bits; reg's own top bit does not
   * matter.
   */
  lemma ReadFrameDecodes(reg: Byte)
    ensures Decode(ReadFrame(reg)[8..]) == ReadReg(reg[1..])
    ensures ReadFrame(reg)[16..] == Zeros(16)
  {
    var f := ReadFrame(reg)[8..];
    assert f[0];
    assert f[1..8] == reg[1..];
  }

  /**
   * For a register below 0x80 and a value below 0x10000, the 24 bits a write
   * puts on MOSI ask for a write of val's low 16 bits to reg.
   */
  lemma WriteFrameDecodes(reg: Byte, val: Word)
    requires !reg[0] && val[..16] == Zeros(16)
    ensures Decode(WriteFrame(reg, val)[8..]) == WriteReg(reg[1..], val[16..])
  {
    WriteFrameIff(reg, val);
  }

  /**
   * For a register below 0x80, the write arrives as meant exactly when
   * every bit of val's bits 16-23 is clear or already set in reg; any other
   * value of 0x10000 or more turns the write into a read or sends it to
   * another register.
   */
  lemma WriteFrameIff(reg: Byte, val: Word)
    requires !reg[0]
    ensures Decode(WriteFrame(reg, val)[8..]) == WriteReg(reg[1..], val[16..]) <==>
            !val[8] && forall i :: 9 <= i < 16 && val[i] ==> reg[i - 8]
  {
    var f := WriteFrame(reg, val)[8..];
    assert f[..8] == Or(reg, val[8..16]);
    assert f[8..] == val[16..];
    if Decode(f) == WriteReg(reg[1..], val[16..]) {
      forall i | 9 <= i < 16 && val[i]
        ensures reg[i - 8]
      {
        assert f[1..8][i - 9] == reg[1..][i - 9];
      }
    }
    if !val[8] && forall i :: 9 <= i < 16 && val[i] ==> reg[i - 8] {
      assert f[1..8] == reg[1..];
    }
  }

  /** One instance: writing 0x10000 to register 0 writes register 1 instead. */
  lemma WriteFrameSpill()
    ensures Decode(WriteFrame(Zeros(8), Zeros(15) + [true] + Zeros(16))[8..]) ==
            WriteReg(Zeros(6) + [true], Zeros(16))
  {
    var val := Zeros(15) + [true] + Zeros(16);
    var f := WriteFrame(Zeros(8), val)[8..];
    assert f[..8] == Or(Zeros(8), val[8..16]);
    assert val[8..16] == Zeros(7) + [true];
    assert f[1..8] == Zeros(6) + [true];
    assert f[8..] == Zeros(16);
  }

  /**
   * `cc2400_get` keeps the low 16 bits of what its transaction returns: of
   * the 24 bits read, the last 16.  The high 8 bits its frame carries over
   * into the result are zero.
   */
  lemma GetResult(reg: Byte, s: seq<bool>)
    requires |s| == 24
    ensures SpiResult(24, ReadFrame(reg), s) == Zeros(8) + s
    ensures Low(SpiResult(24, ReadFrame(reg), s), 16) == s[8..]
  {
    SpiResultBits(24, ReadFrame(reg), s);
    assert ReadFrame(reg)[24..] == Zeros(8);
  }

  /** `cc2400_status` returns exactly the 8 bits read. */
  lemma StatusResult(s: seq<bool>)
    requires |s| == 8
    ensures Low(SpiResult(8, Zeros(32), s), 8) == s
  {
    SpiResultBits(8, Zeros(32), s);
  }

  /**
   * `cc2400_strobe(reg)` sends reg's 8 bits; the word its transaction
   * returns holds reg in bits 8-15, which the cast to u8 drops, leaving the
   * 8 bits read.
   */
  lemma StrobeResult(reg: Byte, s: seq<bool>)
    requires |s| == 8
    ensures Widen(reg, 32)[24..] == reg
    ensures SpiResult(8, Widen(reg, 32), s) == Zeros(16) + reg + s
    ensures Low(SpiResult(8, Widen(reg, 32), s), 8) == s
  {
    SpiResultBits(8, Widen(reg, 32), s);
    assert Widen(reg, 32)[8..] == Zeros(16) + reg;
  }

  /** One call of the register layer, with the value it wrote or returned. */
  datatype Access =
    | Wrote(reg: Byte, val: Word)      // cc2400_set(reg, val)
    | Read(reg: Byte, got: Half)       // cc2400_get(reg) returned got
    | StatusRead(st: Byte)             // cc2400_status() returned st
    | Strobed(reg: Byte, st: Byte)     // cc2400_strobe(reg) returned st

  /** The length of the access's transaction. */
  function Width(a: Access): (n: nat)
  {
    if a.Wrote? || a.Read? then 24 else 8
  }

  /** The bits the access sends on MOSI, first one first. */
  function Sent(a: Access): (bits: seq<bool>)
    ensures |bits| == Width(a)
  {
    match a
    case Wrote(reg, val) => WriteFrame(reg, val)[8..]
    case Read(reg, _) => ReadFrame(reg)[8..]
    case StatusRead(_) => Zeros(8)
    case Strobed(reg, _) => reg
  }

  /** The pin events of the access when its first SCLK rise is rise c of the run. */
  function AccessFrame(a: Access, miso: nat -> bool, c: nat): (t: seq<Event>)
  {
    Frame(Sent(a), Samples(miso, c, Width(a)))
  }

  /** The number of SCLK rises a run of accesses takes. */
  function Clocks(log: seq<Access>): (n: nat)
  {
    if log == [] then 0 else Width(log[0]) + Clocks(log[1..])
  }

  /**
   * The frames of a run of accesses laid end to end, each access's frame
   * starting at the rise after the previous access's last; frame(a, k) is
   * the frame of access a starting at rise k.
   */
  function Join(log: seq<Access>, frame: (Access, nat) -> seq<Event>, c: nat): (t: seq<Event>)
  {
    if log == [] then [] else frame(log[0], c) + Join(log[1..], frame, c + Width(log[0]))
  }

  /** AccessFrame for a fixed MISO oracle. */
  function Framer(miso: nat -> bool): (frame: (Access, nat) -> seq<Event>)
  {
    (a: Access, k: nat) => AccessFrame(a, miso, k)
  }

  /** The pin events of a run of accesses whose first SCLK rise is rise c. */
  function Wire(log: seq<Access>, miso: nat -> bool, c: nat): (t: seq<Event>)
  {
    Join(log, Framer(miso), c)
  }

  lemma {:induction false} ClocksAppend(a: seq<Access>, b: seq<Access>)
    ensures Clocks(a + b) == Clocks(a) + Clocks(b)
  {
    if a == [] {
      assert a + b == b;
    } else {
      ClocksAppend(a[1..], b);
      assert (a + b)[1..] == a[1..] + b;
    }
  }

  /** Two runs of accesses, one after the other. */
  lemma {:induction false} JoinAppend(a: seq<Access>, b: seq<Access>, frame: (Access, nat) -> seq<Event>, c: nat)
    ensures Join(a + b, frame, c) == Join(a, frame, c) + Join(b, frame, c + Clocks(a))
  {
    if a == [] {
      assert a + b == b;
    } else {
      var c' := c + Width(a[0]);
      var f := frame(a[0], c);
      var r := Join(a[1..], frame, c');
      var w := Join(b, frame, c' + Clocks(a[1..]));
      assert Join(a + b, frame, c) == f + Join(a[1..] + b, frame, c') by {
        assert (a + b)[1..] == a[1..] + b;
        assert (a + b)[0] == a[0];
      }
      assert Join(a[1..] + b, frame, c') == r + w by {
        JoinAppend(a[1..], b, frame, c');
      }
      assert Join(a, frame, c) == f + r;
      Regroup(Join(a + b, frame, c), f, Join(a[1..] + b, frame, c'), r, w, Join(a, frame, c));
    }
  }

  lemma Regroup(x: seq<Event>, f: seq<Event>, y: seq<Event>, r: seq<Event>, w: seq<Event>, z: seq<Event>)
    requires x == f + y && y == r + w && z == f + r
    ensures x == z + w
  {}

  lemma ClocksSnoc(log: seq<Access>, a: Access)
    ensures Clocks(log + [a]) == Clocks(log) + Width(a)
  {
    ClocksAppend(log, [a]);
    assert Clocks([a]) == Width(a) + Clocks([]) by {
      assert [a][1..] == [];
    }
  }

  lemma JoinOne(a: Access, frame: (Access, nat) -> seq<Event>, c: nat)
    ensures Join([a], frame, c) == frame(a, c)
  {
    assert [a][1..] == [];
  }

  /** Each frame clocks the bus once per bit its access sends. */
  lemma {:induction false} JoinRises(log: seq<Access>, frame: (Access, nat) -> seq<Event>, c: nat)
    requires forall a, k :: Rises(frame(a, k)) == Width(a)
    ensures Rises(Join(log, frame, c)) == Clocks(log)
  {
    if log != [] {
      JoinRises(log[1..], frame, c + Width(log[0]));
      RisesAppend(frame(log[0], c), Join(log[1..], frame, c + Width(log[0])));
    }
  }

  /** The wire of a run of accesses clocks the bus exactly as often as the accesses say. */
  /**
   * Chip select across a run of accesses: every clock, data and sample
   * event of the wire happens after a CSN fall with no CSN rise since.
   */
  lemma {:induction false} WireGuarded(log: seq<Access>, miso: nat -> bool, c: nat)
    ensures Guarded(Wire(log, miso, c))
  {
    if log != [] {
      var a := log[0];
      WireGuarded(log[1..], miso, c + Width(a));
      FrameGuarded(Sent(a), Samples(miso, c, Width(a)));
      assert Wire(log, miso, c) == AccessFrame(a, miso, c) + Wire(log[1..], miso, c + Width(a));
      GuardedAppend(AccessFrame(a, miso, c), Wire(log[1..], miso, c + Width(a)));
    }
  }

  lemma WireRises(log: seq<Access>, miso: nat -> bool, c: nat)
    ensures Rises(Wire(log, miso, c)) == Clocks(log)
  {
    forall a, k: nat
      ensures Rises(Framer(miso)(a, k)) == Width(a)
    {
      FrameRises(Sent(a), Samples(miso, k, Width(a)));
    }
    JoinRises(log, Framer(miso), c);
  }

  /** The value poll i of a run of 24-bit polls starting at rise c reads. */
  function PollValue(miso: nat -> bool, c: nat, i: nat): (v: Half)
  {
    Samples(miso, c + 24 * i, 24)[8..]
  }

  /** Some poll of the run starting at rise c reads want. */
  ghost predicate Echoes(miso: nat -> bool, c: nat, want: Half)
  {
    exists i: nat :: PollValue(miso, c, i) == want
  }

  /** The first poll of the run starting at rise c that reads want. */
  ghost function FirstEcho(miso: nat -> bool, c: nat, want: Half): (n: nat)
    requires Echoes(miso, c, want)
    ensures PollValue(miso, c, n) == want
    ensures forall i :: 0 <= i < n ==> PollValue(miso, c, i) != want
  {
    var b: nat :| PollValue(miso, c, b) == want;
    EchoFrom(miso, c, want, 0, b)
  }

  ghost function EchoFrom(miso: nat -> bool, c: nat, want: Half, from: nat, b: nat): (n: nat)
    requires from <= b && PollValue(miso, c, b) == want
    requires forall i :: 0 <= i < from ==> PollValue(miso, c, i) != want
    ensures from <= n <= b && PollValue(miso, c, n) == want
    ensures forall i :: 0 <= i < n ==> PollValue(miso, c, i) != want
    decreases b - from
  {
    if PollValue(miso, c, from) == want then from else EchoFrom(miso, c, want, from + 1, b)
  }

  /** n reads of reg whose first SCLK rise is rise c, with the values they return. */
  function Polls(reg: Byte, miso: nat -> bool, c: nat, n: nat): (log: seq<Access>)
    ensures |log| == n
  {
    seq(n, i requires 0 <= i < n => Read(reg, PollValue(miso, c, i)))
  }

  /** Read i of a run of polls. */
  lemma PollsAt(reg: Byte, miso: nat -> bool, c: nat, n: nat)
    ensures forall i :: 0 <= i < n ==> Polls(reg, miso, c, n)[i] == Read(reg, PollValue(miso, c, i))
  {}

  lemma PollsSnoc(reg: Byte, miso: nat -> bool, c: nat, n: nat)
    ensures Polls(reg, miso, c, n + 1) == Polls(reg, miso, c, n) + [Read(reg, PollValue(miso, c, n))]
  {}

  /**
   * A write of v to MAIN from rise c takes 24 rises; the reads after it end
   * only if one of them returns v.
   */
  ghost predicate Settles(miso: nat -> bool, c: nat, v: Half)
  {
    Echoes(miso, c + 24, v)
  }

  /**
   * One half of `cc2400_reset` from rise c: the write of v to MAIN and the
   * reads of MAIN up to the first that returns v.
   */
  ghost function HandshakeLog(main: Byte, miso: nat -> bool, c: nat, v: Half): (log: seq<Access>)
    requires Settles(miso, c, v)
  {
    [Wrote(main, Widen(v, 32))] + Polls(main, miso, c + 24, FirstEcho(miso, c + 24, v) + 1)
  }

  /** The rise count at the end of that half. */
  ghost function HandshakeEnd(miso: nat -> bool, c: nat, v: Half): (e: nat)
    requires Settles(miso, c, v)
  {
    c + 24 * FirstEcho(miso, c + 24, v) + 48
  }

  /**
   * `cc2400_reset` returns when the chip echoes 0x0000 and then 0x8000: a
   * read after the first write returns 0, and a read after the second
   * returns 0x8000.
   */
  ghost predicate ResetEnds(miso: nat -> bool, c: nat)
  {
    Settles(miso, c, Zeros(16)) && Settles(miso, HandshakeEnd(miso, c, Zeros(16)), Hex8000)
  }

  /**
   * The accesses of `cc2400_reset` on MAIN from rise c: write 0, read until
   * a read returns 0, write 0x8000, read until a read returns 0x8000.
   */
  ghost function ResetLog(main: Byte, miso: nat -> bool, c: nat): (log: seq<Access>)
    requires ResetEnds(miso, c)
  {
    HandshakeLog(main, miso, c, Zeros(16)) + HandshakeLog(main, miso, HandshakeEnd(miso, c, Zeros(16)), Hex8000)
  }

  /**
   * The accesses of `cc2400_reset` on MAIN from rise c when the reads after
   * the first write run to read k and those after the second to read m:
   * write 0, k + 1 reads, write 0x8000, m + 1 reads.
   */
  function ResetRun(main: Byte, miso: nat -> bool, c: nat, k: nat, m: nat): (log: seq<Access>)
  {
    [Wrote(main, Widen(Zeros(16), 32))] + Polls(main, miso, c + 24, k + 1) +
    [Wrote(main, Widen(Hex8000, 32))] + Polls(main, miso, c + 24 * k + 72, m + 1)
  }

  lemma WidenZeros()
    ensures Widen(Zeros(16), 32) == Zeros(32)
  {}

  /**
   * The order `cc2400_reset` promises: it writes 0 to MAIN first; every read
   * after it returns a non-zero value until the read at position k+1, which
   * returns 0; then it writes 0x8000; every read after that returns a value
   * other than 0x8000 until the last one, which returns 0x8000.  Every
   * access is on MAIN, and the two writes are the only writes.
   */
  lemma ResetOrder(main: Byte, miso: nat -> bool, c: nat)
    requires ResetEnds(miso, c)
    ensures var log := ResetLog(main, miso, c);
            var k := FirstEcho(miso, c + 24, Zeros(16));
            |log| >= 4 && k + 3 < |log| &&
            log[0] == Wrote(main, Zeros(32)) &&
            (forall i :: 1 <= i <= k ==> log[i].Read? && log[i].got != Zeros(16)) &&
            log[k + 1] == Read(main, Zeros(16)) &&
            log[k + 2] == Wrote(main, Widen(Hex8000, 32)) &&
            (forall i :: k + 3 <= i < |log| - 1 ==> log[i].Read? && log[i].got != Hex8000) &&
            log[|log| - 1] == Read(main, Hex8000) &&
            (forall i :: 0 <= i < |log| ==> (log[i].Wrote? || log[i].Read?) && log[i].reg == main) &&
            (forall i :: 0 <= i < |log| && log[i].Wrote? ==> i == 0 || i == k + 2)
  {
    var k := FirstEcho(miso, c + 24, Zeros(16));
    var c2 := HandshakeEnd(miso, c, Zeros(16)) + 24;
    var m := FirstEcho(miso, c2, Hex8000);
    assert ResetLog(main, miso, c) == ResetRun(main, miso, c, k, m);
    RunOrder(main, miso, c, k, m, c + 24, c2);
  }

  /** ResetOrder for a run whose reads first return 0 at read k and 0x8000 at read m. */
  lemma RunOrder(main: Byte, miso: nat -> bool, c: nat, k: nat, m: nat, c1: nat, c2: nat)
    requires c1 == c + 24 && c2 == c + 24 * k + 72
    requires PollValue(miso, c1, k) == Zeros(16)
    requires forall i :: 0 <= i < k ==> PollValue(miso, c1, i) != Zeros(16)
    requires PollValue(miso, c2, m) == Hex8000
    requires forall i :: 0 <= i < m ==> PollValue(miso, c2, i) != Hex8000
    ensures var log := ResetRun(main, miso, c, k, m);
            |log| >= 4 && k + 3 < |log| &&
            log[0] == Wrote(main, Zeros(32)) &&
            (forall i :: 1 <= i <= k ==> log[i].Read? && log[i].got != Zeros(16)) &&
            log[k + 1] == Read(main, Zeros(16)) &&
            log[k + 2] == Wrote(main, Widen(Hex8000, 32)) &&
            (forall i :: k + 3 <= i < |log| - 1 ==> log[i].Read? && log[i].got != Hex8000) &&
            log[|log| - 1] == Read(main, Hex8000) &&
            (forall i :: 0 <= i < |log| ==> (log[i].Wrote? || log[i].Read?) && log[i].reg == main) &&
            (forall i :: 0 <= i < |log| && log[i].Wrote? ==> i == 0 || i == k + 2)
  {
    PollsAt(main, miso, c1, k + 1);
    PollsAt(main, miso, c2, m + 1);
    WidenZeros();
    Spliced(Wrote(main, Widen(Zeros(16), 32)), Polls(main, miso, c + 24, k + 1),
            Wrote(main, Widen(Hex8000, 32)), Polls(main, miso, c + 24 * k + 72, m + 1));
  }

  /** Where the parts of a log made of a write, reads, a write and reads sit. */
  lemma Spliced(w0: Access, p1: seq<Access>, w1: Access, p2: seq<Access>)
    ensures var log := [w0] + p1 + [w1] + p2;
            |log| == |p1| + |p2| + 2 && log[0] == w0 && log[|p1| + 1] == w1 &&
            (forall i :: 1 <= i <= |p1| ==> log[i] == p1[i - 1]) &&
            (forall i :: |p1| + 2 <= i < |log| ==> log[i] == p2[i - (|p1| + 2)])
  {}

  /**
   * For a MAIN address below 0x80, the two writes of the reset reach MAIN
   * intact, as writes of 0x0000 and 0x8000, and its reads are reads of MAIN.
   */
  lemma ResetFramesDecode(main: Byte, got: Half)
    requires !main[0]
    ensures Decode(Sent(Wrote(main, Zeros(32)))) == WriteReg(main[1..], Zeros(16))
    ensures Decode(Sent(Wrote(main, Widen(Hex8000, 32)))) == WriteReg(main[1..], Hex8000)
    ensures Decode(Sent(Read(main, got))) == ReadReg(main[1..])
  {
    WriteFrameDecodes(main, Zeros(32));
    WriteFrameDecodes(main, Widen(Hex8000, 32));
    ReadFrameDecodes(main);
  }

  /** A half of the reset takes 24 rises per access, and ends where HandshakeEnd says. */
  lemma HandshakeClocks(main: Byte, miso: nat -> bool, c: nat, v: Half)
    requires Settles(miso, c, v)
    ensures Clocks(HandshakeLog(main, miso, c, v)) == 24 * |HandshakeLog(main, miso, c, v)|
    ensures HandshakeEnd(miso, c, v) == c + Clocks(HandshakeLog(main, miso, c, v))
  {
    var k := FirstEcho(miso, c + 24, v);
    var p := Polls(main, miso, c + 24, k + 1);
    PollsAt(main, miso, c + 24, k + 1);
    assert HandshakeLog(main, miso, c, v) == [Wrote(main, Widen(v, 32))] + p;
    AllWideClocks(HandshakeLog(main, miso, c, v));
  }

  /** A run of 24-bit accesses takes 24 rises per access. */
  lemma {:induction false} AllWideClocks(log: seq<Access>)
    requires forall i :: 0 <= i < |log| ==> log[i].Wrote? || log[i].Read?
    ensures Clocks(log) == 24 * |log|
  {
    if log != [] {
      AllWideClocks(log[1..]);
    }
  }
}
