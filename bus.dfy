/**
 * What the firmware does on the CC2400's pins, as a trace of events: pin
 * drives (the `*_SET` / `*_CLR` macros), reads of MISO, and busy-wait
 * delays.  A bit-banged SPI transaction is a frame of rounds, one round per
 * bit.
 */
module Bus {
  /** The output pins the core drives. */
  datatype Pin = Csn | Sclk | Mosi | Cc1v8 | Cc3v3

  datatype Event =
    | Drive(pin: Pin, high: bool)   // PIN_SET (high) or PIN_CLR (low)
    | Sample(level: bool)           // a read of MISO
    | Delay                         // spi_delay() or wait()
    | Configure                     // the register stores of gpio_init or atest_init

  /**
   * The oracle for MISO: the level the CC2400 presents at the k-th SCLK
   * rise since power-up.  The n levels read from rise c on:
   */
  function Samples(miso: nat -> bool, c: nat, n: nat): (s: seq<bool>)
    ensures |s| == n
  {
    seq(n, i requires 0 <= i < n => miso(c + i))
  }

  lemma SamplesSnoc(miso: nat -> bool, c: nat, n: nat)
    ensures Samples(miso, c, n + 1) == Samples(miso, c, n) + [miso(c + n)]
  {}

  /**
   * One bit of a transaction: put the bit on MOSI, wait, raise SCLK, read
   * MISO, wait, lower SCLK.
   */
  function Round(out: bool, level: bool): (r: seq<Event>)
  {
    [Drive(Mosi, out), Delay, Drive(Sclk, true), Sample(level), Delay, Drive(Sclk, false)]
  }

  /** The rounds for bits outs[0], outs[1], ... (sent in that order) and the levels read. */
  function Rounds(outs: seq<bool>, ins: seq<bool>): (r: seq<Event>)
    requires |outs| == |ins|
    ensures |r| == 6 * |outs|
  {
    if outs == [] then []
    else Rounds(outs[..|outs| - 1], ins[..|ins| - 1]) + Round(outs[|outs| - 1], ins[|ins| - 1])
  }

  /** A whole transaction: CSN low, the rounds, a delay, CSN high. */
  function Frame(outs: seq<bool>, ins: seq<bool>): (f: seq<Event>)
    requires |outs| == |ins|
  {
    [Drive(Csn, false)] + Rounds(outs, ins) + [Delay, Drive(Csn, true)]
  }

  lemma RoundsSnoc(outs: seq<bool>, ins: seq<bool>, o: bool, b: bool)
    requires |outs| == |ins|
    ensures Rounds(outs + [o], ins + [b]) == Rounds(outs, ins) + Round(o, b)
  {
    assert (outs + [o])[..|outs|] == outs;
    assert (ins + [b])[..|ins|] == ins;
  }

  /** Round k of the rounds sits at offset 6k. */
  lemma {:induction false} RoundsAt(outs: seq<bool>, ins: seq<bool>, k: nat)
    requires |outs| == |ins| && k < |outs|
    ensures Rounds(outs, ins)[6 * k..6 * k + 6] == Round(outs[k], ins[k])
  {
    var n := |outs| - 1;
    var front := Rounds(outs[..n], ins[..n]);
    assert Rounds(outs, ins) == front + Round(outs[n], ins[n]);
    if k < n {
      RoundsAt(outs[..n], ins[..n], k);
      assert Rounds(outs, ins)[6 * k..6 * k + 6] == front[6 * k..6 * k + 6];
    } else {
      assert Rounds(outs, ins)[6 * k..6 * k + 6] == Round(outs[n], ins[n]);
    }
  }

  /** No round touches CSN. */
  lemma {:induction false} RoundsKeepCsn(outs: seq<bool>, ins: seq<bool>, i: nat)
    requires |outs| == |ins| && i < 6 * |outs|
    ensures Rounds(outs, ins)[i] != Drive(Csn, false) && Rounds(outs, ins)[i] != Drive(Csn, true)
  {
    var k := i / 6;
    RoundsAt(outs, ins, k);
    assert Rounds(outs, ins)[i] == Round(outs[k], ins[k])[i - 6 * k];
  }

  /**
   * The framing of a transaction of n bits: CSN falls first and rises last,
   * nothing in between touches CSN, and between them lie exactly n rounds,
   * round k sending outs[k] on MOSI before its SCLK rise and reading
   * ins[k] after it.
   */
  lemma FrameShape(outs: seq<bool>, ins: seq<bool>)
    requires |outs| == |ins|
    ensures |Frame(outs, ins)| == 6 * |outs| + 3
    ensures Frame(outs, ins)[0] == Drive(Csn, false)
    ensures Frame(outs, ins)[|Frame(outs, ins)| - 1] == Drive(Csn, true)
    ensures forall i :: 0 < i < |Frame(outs, ins)| - 1 ==>
              Frame(outs, ins)[i] != Drive(Csn, false) && Frame(outs, ins)[i] != Drive(Csn, true)
    ensures forall k :: 0 <= k < |outs| ==>
              Frame(outs, ins)[1 + 6 * k..7 + 6 * k] == Round(outs[k], ins[k])
  {
    var f := Frame(outs, ins);
    var r := Rounds(outs, ins);
    forall i | 0 < i < |f| - 1
      ensures f[i] != Drive(Csn, false) && f[i] != Drive(Csn, true)
    {
      if i <= |r| {
        RoundsKeepCsn(outs, ins, i - 1);
        assert f[i] == r[i - 1];
      }
    }
    forall k | 0 <= k < |outs|
      ensures f[1 + 6 * k..7 + 6 * k] == Round(outs[k], ins[k])
    {
      RoundsAt(outs, ins, k);
      assert f[1 + 6 * k..7 + 6 * k] == r[6 * k..6 * k + 6];
    }
  }

  /** A pin event of the bus itself: a drive of SCLK or MOSI, or a read of MISO. */
  predicate BusEvent(e: Event)
  {
    e.Sample? || (e.Drive? && (e.pin == Sclk || e.pin == Mosi))
  }

  /** The chip is selected at position i of t: CSN fell at some earlier j and has not risen in (j, i]. */
  ghost predicate SelectedAt(t: seq<Event>, i: nat)
    requires i < |t|
  {
    exists j :: 0 <= j < i && t[j] == Drive(Csn, false) &&
      forall k :: j < k <= i ==> t[k] != Drive(Csn, true)
  }

  /** Every bus event of t happens while the chip is selected. */
  ghost predicate Guarded(t: seq<Event>)
  {
    forall i :: 0 <= i < |t| && BusEvent(t[i]) ==> SelectedAt(t, i)
  }

  /** Within a transaction, every clock, data and sample event happens with CSN low. */
  lemma FrameGuarded(outs: seq<bool>, ins: seq<bool>)
    requires |outs| == |ins|
    ensures Guarded(Frame(outs, ins))
  {
    var f := Frame(outs, ins);
    FrameShape(outs, ins);
    forall i | 0 <= i < |f| && BusEvent(f[i])
      ensures SelectedAt(f, i)
    {
      assert 0 < i < |f| - 1;
      assert forall k :: 0 < k <= i ==> f[k] != Drive(Csn, true);
      assert f[0] == Drive(Csn, false);
    }
  }

  /** Two traces whose bus events are each guarded make a guarded trace. */
  lemma GuardedAppend(a: seq<Event>, b: seq<Event>)
    requires Guarded(a) && Guarded(b)
    ensures Guarded(a + b)
  {
    var t := a + b;
    forall i | 0 <= i < |t| && BusEvent(t[i])
      ensures SelectedAt(t, i)
    {
      if i < |a| {
        assert BusEvent(a[i]);
        var j :| 0 <= j < i && a[j] == Drive(Csn, false) &&
          forall k :: j < k <= i ==> a[k] != Drive(Csn, true);
        assert t[j] == Drive(Csn, false);
        assert forall k :: j < k <= i ==> t[k] == a[k];
      } else {
        var n := i - |a|;
        assert BusEvent(b[n]);
        var j :| 0 <= j < n && b[j] == Drive(Csn, false) &&
          forall k :: j < k <= n ==> b[k] != Drive(Csn, true);
        assert t[|a| + j] == Drive(Csn, false);
        assert forall k :: |a| + j < k <= i ==> t[k] == b[k - |a|];
      }
    }
  }

  /** The number of SCLK rises in a trace. */
  function Rises(t: seq<Event>): (n: nat)
    ensures n <= |t|
  {
    if t == [] then 0
    else Rises(t[..|t| - 1]) + (if t[|t| - 1] == Drive(Sclk, true) then 1 else 0)
  }

  lemma {:induction false} RisesAppend(a: seq<Event>, b: seq<Event>)
    ensures Rises(a + b) == Rises(a) + Rises(b)
  {
    if b != [] {
      RisesAppend(a, b[..|b| - 1]);
      assert (a + b)[..|a + b| - 1] == a + b[..|b| - 1];
    } else {
      assert a + b == a;
    }
  }

  /** A transaction of n bits clocks the bus exactly n times. */
  lemma {:induction false} FrameRises(outs: seq<bool>, ins: seq<bool>)
    requires |outs| == |ins|
    ensures Rises(Frame(outs, ins)) == |outs|
  {
    RoundsRises(outs, ins);
    RisesAppend([Drive(Csn, false)], Rounds(outs, ins));
    RisesAppend([Drive(Csn, false)] + Rounds(outs, ins), [Delay, Drive(Csn, true)]);
    RisesOne(Drive(Csn, false));
    RisesOne(Delay);
    RisesOne(Drive(Csn, true));
    RisesAppend([Delay], [Drive(Csn, true)]);
    assert [Delay] + [Drive(Csn, true)] == [Delay, Drive(Csn, true)];
  }

  lemma {:induction false} RoundsRises(outs: seq<bool>, ins: seq<bool>)
    requires |outs| == |ins|
    ensures Rises(Rounds(outs, ins)) == |outs|
  {
    if outs != [] {
      var n := |outs| - 1;
      RoundsRises(outs[..n], ins[..n]);
      RisesAppend(Rounds(outs[..n], ins[..n]), Round(outs[n], ins[n]));
      RoundRises(outs[n], ins[n]);
    }
  }

  lemma RisesOne(e: Event)
    ensures Rises([e]) == if e == Drive(Sclk, true) then 1 else 0
  {
    assert [e][..0] == [];
  }

  lemma RoundRises(o: bool, b: bool)
    ensures Rises(Round(o, b)) == 1
  {
    var e0, e1, e2 := Drive(Mosi, o), Delay, Drive(Sclk, true);
    var e3, e4, e5 := Sample(b), Delay, Drive(Sclk, false);
    assert Round(o, b) == [e0] + [e1] + [e2] + [e3] + [e4] + [e5];
    RisesOne(e0); RisesOne(e1); RisesOne(e2); RisesOne(e3); RisesOne(e4); RisesOne(e5);
    RisesAppend([e0], [e1]);
    RisesAppend([e0] + [e1], [e2]);
    RisesAppend([e0] + [e1] + [e2], [e3]);
    RisesAppend([e0] + [e1] + [e2] + [e3], [e4]);
    RisesAppend([e0] + [e1] + [e2] + [e3] + [e4], [e5]);
  }

  /**
   * The events of `cc2400_init`: the register stores of `atest_init`, then
   * the 1.8 V supply on, a wait, CSN high (deselected), the 3.3 V I/O
   * supply on.
   */
  const PowerUp: seq<Event> := [Configure, Drive(Cc1v8, true), Delay, Drive(Csn, true), Drive(Cc3v3, true)]

  /**
   * Power-up order: the register stores come first, before the core
   * supply; CSN goes high only after the core supply is on and before the
   * I/O supply is, a delay separates the core supply from the rest, and
   * the clock never rises.
   */
  lemma PowerUpOrder()
    ensures forall i, j :: 0 <= i < |PowerUp| && 0 <= j < |PowerUp| &&
              PowerUp[i] == Configure && PowerUp[j] == Drive(Cc1v8, true)
              ==> i < j
    ensures forall i, j :: 0 <= i < |PowerUp| && 0 <= j < |PowerUp| &&
              PowerUp[i] == Drive(Cc1v8, true) && PowerUp[j] == Drive(Csn, true)
              ==> i + 1 < j
    ensures forall i, j :: 0 <= i < |PowerUp| && 0 <= j < |PowerUp| &&
              PowerUp[i] == Drive(Csn, true) && PowerUp[j] == Drive(Cc3v3, true)
              ==> i < j
    ensures forall i :: 0 <= i < |PowerUp| ==> PowerUp[i] != Drive(Csn, false)
    ensures Rises(PowerUp) == 0
  {
    RisesOne(Configure);
    RisesOne(Drive(Cc1v8, true));
    RisesOne(Delay);
    RisesOne(Drive(Csn, true));
    RisesOne(Drive(Cc3v3, true));
    RisesAppend([Configure], [Drive(Cc1v8, true)]);
    RisesAppend([Configure] + [Drive(Cc1v8, true)], [Delay]);
    RisesAppend([Configure] + [Drive(Cc1v8, true)] + [Delay], [Drive(Csn, true)]);
    RisesAppend([Configure] + [Drive(Cc1v8, true)] + [Delay] + [Drive(Csn, true)], [Drive(Cc3v3, true)]);
    assert PowerUp == [Configure] + [Drive(Cc1v8, true)] + [Delay] + [Drive(Csn, true)] + [Drive(Cc3v3, true)];
    forall i | 0 <= i < |PowerUp|
      ensures PowerUp[i] == Configure ==> i == 0
      ensures PowerUp[i] == Drive(Cc1v8, true) ==> i == 1
      ensures PowerUp[i] == Drive(Csn, true) ==> i == 3
      ensures PowerUp[i] == Drive(Cc3v3, true) ==> i == 4
    {
      assert i == 0 || i == 1 || i == 2 || i == 3 || i == 4;
    }
  }
}
