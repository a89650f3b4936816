# Ubertooth firmware: board set-up and the CC2400 bit-banged SPI layer

This project models `firmware/common/ubertooth.c` of Project Ubertooth in
Dafny and proves properties of the model. That file holds two kinds of code:

- The code that puts the LPC17xx's pins in a safe state (`gpio_init`,
  `atest_init`) and powers up the CC2400 radio (`cc2400_init`).
- The register access layer for the CC2400. `cc2400_spi` bit-bangs a single
  SPI transaction of up to 32 bits:
  - CSN is dropped.
  - Each bit is put on MOSI, SCLK is raised, MISO is sampled and SCLK is
    lowered, with a busy-wait delay around each rise.
  - CSN is raised again.

  `cc2400_get`, `cc2400_set`, `cc2400_status` and `cc2400_strobe` build
  their frames on top of `cc2400_spi`. `cc2400_reset` writes MAIN and polls
  it back until the chip echoes the value, first for 0x0000 and then for
  0x8000.

The model has five modules:

- `Words` (`words.dfy`) holds the C machine words `u8`, `u16` and `u32`.
  Each is a bit string, most significant bit first. The C operators the
  code uses (`<<`, `|`, `&`, `~`, widening and narrowing casts) keep their
  width and truncate explicitly.
- `Bus` (`bus.dfy`) describes what happens on the pins as a trace of
  events:
  - a pin driven high or low (the `*_SET` / `*_CLR` macros);
  - a sample of MISO;
  - a delay (`spi_delay`, `wait`);
  - the register stores of `gpio_init` or `atest_init`, as one event for
    each call, so that the trace records when the registers change
    relative to the pins.

  A transaction is a frame of rounds, one round per bit. `Rises` counts
  the SCLK rises in a trace.
- `Cc2400` (`cc2400.dfy`) holds:
  - the words the register layer hands to `cc2400_spi` and what it makes
    of the result;
  - what a 24-bit frame asks the chip to do (`Decode`);
  - the register accesses as a log of `Access` values;
  - the frames those accesses put on the pins (`AccessFrame`, `Wire`);
  - the accesses `cc2400_reset` makes (`ResetLog`).
- `Gpio` (`gpio.dfy`) covers the memory-mapped GPIO registers that
  `gpio_init` and `atest_init` store to, and their effect bit by bit.
- `Ubertooth` (`ubertooth.dfy`) holds the class `Board`. Its fields are:
  - the registers;
  - the pin trace;
  - `clocks`, the number of SCLK rises so far.

  Its methods are the routines of the file, written as imperative code
  with the same loops. `Board` also has ghost state:
  - the access log since the last power-up;
  - the trace and rise count at that power-up;
  - `frame`, the pin events of each access.

  The invariant `Valid` ties these together: between accesses, the trace
  since power-up is the frames of the logged accesses in order (`ValidWire`
  states this with `Wire`).

The CC2400 is not modelled as a device. The level it shows on MISO is an
oracle `miso: nat -> bool` indexed by SCLK rise since start-up. Every result
the layer returns is therefore stated in terms of the levels read at known
rises. The pin masks of `ubertooth.h` and the MAIN register address are
constructor parameters, because the headers are not part of this model.
MAIN's address must have its top bit clear, as every CC2400 register address
does.

## Model

| member | source | states |
|---|---|---|
| Ubertooth.Board.Spi | firmware/common/ubertooth.c:126-157 | For 1 <= len <= 32, the result is `(data << len) \| s`, where s is the len levels read at the next len rises. This equals data's low 32-len bits followed by s. The trace grows by exactly one frame: CSN low, one round per bit sending data's low len bits most significant first, a delay, CSN high. The clock advances by len. |
| Ubertooth.RoundBits | firmware/common/ubertooth.c:128-144 | After k rounds of the loop, `data & msb` tests the k-th bit to send. `data <<= 1` followed by `data \|= 1` when MISO is high shifts that bit out and the level in. |
| Ubertooth.Advance | firmware/common/ubertooth.c:133-149 | One pass of the loop body keeps the loop's invariants: the word so far, the levels read so far, and the trace as the rounds so far. |
| Ubertooth.Board.Clock | firmware/common/ubertooth.c:134-148 | One bit's pin events form exactly one round: MOSI, delay, SCLK up, the MISO sample at the current rise, delay, SCLK down. |
| Cc2400.SpiResult | firmware/common/ubertooth.c:138-156 | The word returned, `(data << len) \| s`, is data's low 32-len bits followed by s, the levels read, first one most significant. |
| Cc2400.SpiResultBits | firmware/common/ubertooth.c:138-156 | The low len bits of `(data << len) \| s` are s, and for len = 32 the whole word is s. |
| Words.MaskTest | firmware/common/ubertooth.c:128-134 | Testing a word against `1 << j` reads bit j: the test is nonzero exactly when bit j is set. |
| Words.ShlOrLow | firmware/common/ubertooth.c:138-144 | `(d << n) \| r`, with r of n bits, is the low bits of d followed by r. |
| Bus.FrameShape | firmware/common/ubertooth.c:131-154 | A frame of n bits has 6n + 3 events. CSN falls first and rises last, and nothing in between touches CSN. Round k sits at offset 1 + 6k and sends bit k. |
| Bus.FrameRises | firmware/common/ubertooth.c:133-149 | A frame of n bits raises SCLK exactly n times. |
| Cc2400.ReadFrame | firmware/common/ubertooth.c:166 | `(reg \| 0x80) << 16` as 32 bits: 8 zero bits, a one (the read flag), reg's low 7 bits, then 16 zero bits. |
| Cc2400.ReadFrameDecodes | firmware/common/ubertooth.c:166-167 | The 24 bits `cc2400_get(reg)` sends ask for a read of reg's low 7 bits and carry 16 zero bits. Reg's own top bit does not matter. |
| Cc2400.WriteFrame | firmware/common/ubertooth.c:176 | `(reg << 16) \| val` as 32 bits: val's top 8 bits, then reg OR'ed into val's bits 16-23, then val's low 16 bits. |
| Cc2400.WriteFrameDecodes | firmware/common/ubertooth.c:176-177 | For reg below 0x80 and val below 0x10000, the 24 bits `cc2400_set` sends ask for a write of val to reg. |
| Cc2400.WriteFrameIff | firmware/common/ubertooth.c:176-177 | For reg below 0x80, the write reaches reg with val's low 16 bits if and only if val's bit 23 is clear and each of its bits 16-22 is clear or already set in reg. |
| Cc2400.WriteFrameSpill | firmware/common/ubertooth.c:176 | An instance of the previous row: `cc2400_set(0, 0x10000)` writes 0 to register 1. |
| Cc2400.GetResult | firmware/common/ubertooth.c:160-171 | The word `cc2400_get`'s transaction returns is 8 zero bits followed by the 24 levels read. `in & 0xFFFF` keeps the last 16. |
| Cc2400.StatusResult | firmware/common/ubertooth.c:181-184 | `cc2400_status` returns exactly the 8 levels read. |
| Cc2400.StrobeResult | firmware/common/ubertooth.c:187-190 | The word returned after sending reg holds reg in bits 8-15. The cast to `u8` drops them and leaves the 8 levels read. |
| Cc2400.ConstantValues | firmware/common/ubertooth.c:166-197 | The bit strings used for 0x80 (the read flag) and 0x8000 denote those numbers. |
| Ubertooth.Board.Get | firmware/common/ubertooth.c:160-171 | Returns the last 16 of the 24 levels read. Logs `Read(reg, val)`, adds that access's frame to the trace, advances the clock by 24, and keeps the invariant. |
| Ubertooth.Board.Set | firmware/common/ubertooth.c:174-178 | Logs `Wrote(reg, val)`, adds its frame to the trace, advances the clock by 24, and keeps the invariant. |
| Ubertooth.Board.Status | firmware/common/ubertooth.c:181-184 | Returns the 8 levels read while sending zeros. Logs the access, adds its frame, and advances the clock by 8. |
| Ubertooth.Board.Strobe | firmware/common/ubertooth.c:187-190 | Returns the 8 levels read while sending reg. Logs the access, adds its frame, and advances the clock by 8. |
| Ubertooth.Board.ValidWire | firmware/common/ubertooth.c:160-190 | Between accesses, the trace since power-up is the frames of the logged accesses laid end to end, each starting at the rise after the one before. |
| Bus.FrameGuarded | firmware/common/ubertooth.c:131-154 | Within a transaction, every SCLK or MOSI drive and every MISO read comes after CSN fell, with no CSN rise in between. |
| Bus.GuardedAppend | firmware/common/ubertooth.c:126-157 | Transactions placed one after another keep that property: it holds for the joined trace when it holds for each part. |
| Cc2400.WireGuarded | firmware/common/ubertooth.c:126-190 | Across any run of register accesses, no clock, data or sample event happens while CSN is high: each follows a CSN fall with no CSN rise since. |
| Ubertooth.Board.ValidGuarded | firmware/common/ubertooth.c:126-190 | Between accesses, every bus event since the last power-up happens with the chip selected. |
| Ubertooth.Board.ValidClocked | firmware/common/ubertooth.c:126-157 | Between accesses, the SCLK rises in the trace are exactly the rises counted, so every sample reads the oracle at the right rise. |
| Cc2400.WireRises | firmware/common/ubertooth.c:126-190 | The frames of a run of accesses raise SCLK once per bit the accesses send: 24 per read or write, 8 per status or strobe. |
| Ubertooth.Board.AwaitMain | firmware/common/ubertooth.c:196-198 | `while (cc2400_get(MAIN) != want);` logs the reads of MAIN up to and including the first that returns want, and nothing else. The clock advances by 24 per read. |
| Ubertooth.Board.Handshake | firmware/common/ubertooth.c:195-198 | One half of the reset: the write of v to MAIN followed by the reads up to the first that returns v. |
| Ubertooth.Board.Reset | firmware/common/ubertooth.c:192-199 | The accesses are exactly `ResetLog`, and the trace grows by their frames. The clock advances by 24 per access. Requires that the chip does echo both values, without which the source never returns. |
| Cc2400.ResetOrder | firmware/common/ubertooth.c:192-199 | The reset's log, in order: write 0 to MAIN; reads returning non-zero values; a read returning 0; write 0x8000; reads returning other values; a final read returning 0x8000. Every access is on MAIN, and the two writes are the only writes. |
| Cc2400.RunOrder | firmware/common/ubertooth.c:192-199 | The same order for a run whose polls first return 0 at poll k and 0x8000 at poll m. |
| Cc2400.ResetFramesDecode | firmware/common/ubertooth.c:195-198 | For a MAIN address below 0x80, the two writes reach MAIN intact as 0x0000 and 0x8000, and the polls ask for reads of MAIN. |
| Cc2400.HandshakeClocks | firmware/common/ubertooth.c:195-198 | Each half of the reset takes 24 rises per access, and ends where the next half starts. |
| Ubertooth.Board.GpioInit | firmware/common/ubertooth.c:35-65 | The registers become `AfterGpioInit` of the old ones, and the trace records one `Configure` event for the stores. The stores include `FIO1PIN = 0`, which drives low every port-1 output, CSN and both CC2400 supplies among them; the trace does not spell that out (see Left out). If the trace's rises matched the clock count before, they still do. |
| Ubertooth.Board.UbertoothInit | firmware/common/ubertooth.c:70-76 | For now, only the effect of `gpio_init`: its registers and its one `Configure` event. |
| Gpio.GpioInitSafe | firmware/common/ubertooth.c:35-65 | From any state, `gpio_init` reaches the safe state: all pins GPIO, exactly the board's output pins outputs, all outputs low. It keeps PINMODE1. It changes nothing exactly when the state is already safe, and it is idempotent. |
| Gpio.Port1OutputsBits | firmware/common/ubertooth.c:53-54 | A port-1 pin is an output exactly when it is one of CC3V3, RX, TX, CSN, SCLK, MOSI, CC1V8 or BTGR. |
| Ubertooth.Board.AtestInit | firmware/common/ubertooth.c:78-90 | The registers become `AfterAtestInit` of the old ones, by the four read-modify-write stores in order. The trace records one `Configure` event for them. |
| Gpio.AtestInitBits | firmware/common/ubertooth.c:86-89 | Bit by bit: PINSEL1 bits 18-21 and FIO0DIR bits 25-26 are cleared. PINMODE1 bits 18-19 are cleared and its bit 20 is set. Every other bit and register is kept. |
| Gpio.Pinsel1Mask | firmware/common/ubertooth.c:86 | `w & ~((0x3 << 20) \| (0x3 << 18))` clears bits 18-21 and keeps the rest. |
| Gpio.Fio0dirMask | firmware/common/ubertooth.c:87 | `w & ~(0x3 << 25)` clears bits 25-26 and keeps the rest. |
| Gpio.Pinmode1Masks | firmware/common/ubertooth.c:88-89 | `\|= 0x3 << 19` followed by `&= ~(0x3 << 18)` amounts to clearing bits 18-19 and setting bit 20. |
| Gpio.ThreeShl | firmware/common/ubertooth.c:86-89 | `0x3 << n` has bits n and n+1 set and no others. |
| Ubertooth.Board.Cc2400Init | firmware/common/ubertooth.c:92-105 | The registers end as `atest_init` leaves them, and the trace grows by exactly `PowerUp`: the `Configure` event of `atest_init`'s stores, then 1.8 V supply on, a delay, CSN high, 3.3 V supply on. So the stores happen before either supply comes on. Takes no SCLK rise, and restarts the access log, after which the board invariant holds. It only needs the trace's rises to match the clock count, so it can follow `gpio_init` as the boot order demands. |
| Bus.PowerUpOrder | firmware/common/ubertooth.c:94-104 | In the power-up events, `atest_init`'s stores come before the core supply. CSN goes high after the core supply, with a delay in between, and before the I/O supply. CSN is never driven low, and SCLK never rises. |
| Ubertooth.Board.Drive | firmware/common/ubertooth.c:96-153 | A `*_SET` or `*_CLR` macro adds one event driving that pin high or low, and changes nothing else. |
| Ubertooth.Board.ReadMiso | firmware/common/ubertooth.c:143 | Reading `MISO` returns the oracle's level at the current SCLK rise count, adds a sample event, and counts the rise that preceded it. |
| Ubertooth.Boot | firmware/common/ubertooth.c:31-105 | The boot order the file foresees: a new board, `gpio_init` very early (lines 31-34), then `cc2400_init` (the call line 73 leaves commented out). Then one `cc2400_status`, which the source does not make at boot, to show that register accesses can follow. The registers end as both routines leave them; the trace is the two `Configure` events, the power-up and the read's frame, and every bus event in it happens with the chip selected; the board invariant holds, so a reset or any other access can follow. |
| Ubertooth.Board.Pause | firmware/common/ubertooth.c:107-111 | `spi_delay` (and `wait`, lines 25-29) add a single delay event and nothing else. |

## Left out

- Timing: `wait` and `spi_delay` are one `Delay` event each. The model leaves out:
  - how long they spin;
  - `wait`'s `400000 * seconds` in 32 bits;
  - the wrap-around of `--i` from 0.
- The electrical meaning of the registers and pins is not modelled. This includes what a PINMODE1 encoding selects. The model states the bits the code writes, which for PINMODE1 are bits 18-19 clear and bit 20 set.
- The CC2400 itself is not a model of the chip. MISO is an oracle indexed by SCLK rise, and it does not react to what MOSI sends.
- `ubertooth.h` and `cc2400.h` are not part of this model. The pin masks and the MAIN address are parameters. MAIN's address must be below 0x80.
- Ubertooth.Board.Spi: requires 1 <= len <= 32. For len 0, `1 << (len - 1)` shifts by -1, and for len above 32 it shifts the `int` 1 by at least the width of `int`; both are undefined in C. For len 32, `1 << 31` on a signed `int` is undefined too; the model uses the mask 0x80000000 that compilers produce for it. The callers use 8 and 24.
- Ubertooth.Board.Reset: requires that the chip eventually echoes 0x0000 and then 0x8000 (`ResetEnds`). Otherwise the source's loops never end, and the model has no non-terminating runs. Ubertooth.Board.AwaitMain (`Echoes`) and Ubertooth.Board.Handshake (`Settles`) carry the same assumption for the one value they wait for.
- Ubertooth.Board.Get: the trace is stated through the board's `frame`. `Valid` ties `frame` to `AccessFrame`, and `ValidWire` restates the whole trace with `Wire`. The same holds for Set, Status, Strobe and Reset.
- Ubertooth.Board.GpioInit: the trace records the stores as a single `Configure` event. It does not record that `FIO1PIN = 0` (line 61) drives CSN, SCLK, MOSI, CC1V8 and CC3V3 low, powering the CC2400 down and selecting it. `Valid` relates the trace since power-up only to the accesses, so after a `gpio_init` it holds again only once `cc2400_init` has run (as in `Ubertooth.Boot`); a `gpio_init` between accesses leaves it unclaimed.
- The access log and the rise count used for the trace invariant restart at `cc2400_init`. Accesses made before the power-up are not related to the trace.
- Ubertooth.Board.UbertoothInit: line 73 leaves the call of `cc2400_init` commented out, so `UbertoothInit` calls only `GpioInit`; the sequence with the call in place is `Ubertooth.Boot`. The other `FIXME` comments (clock set-up, USB set-up, SSP, TX/RX, lines 74-75, 194 and 201-203) name code that does not exist, so there is nothing to model.
- Interrupts and concurrency: the routines are modelled as running alone.
