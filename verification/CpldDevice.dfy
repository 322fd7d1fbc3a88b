/** The CPLD end of the four-wire link: what it latches on which strobe edge, and
    what the driver's slice primitives do to it.

    This is the device assumption of the SDP and ESDP transports (module/cpld_sdp.c:95-153):
    - STB0 falling while STB1 is high latches address bits 3..2;
    - STB0 rising while STB1 is low latches address bits 1..0;
    - STB0 falling while STB1 is low latches the slice index;
    - STB1 rising while STB0 is low stores the two data bits in the selected slice;
    - every other change of level does nothing, and DI shows the selected slice. */
module CpldDevice {
  datatype Levels = Levels(ado0: bool, ado1: bool, stb0: bool, stb1: bool)

  datatype OutPin = ADO0 | ADO1 | STB0 | STB1

  /** One stored slice: register address, slice index, two data bits. */
  datatype Commit = Commit(addr: int, bsl: int, dat: bv8)

  /** Register contents; a register that was never written holds 0. */
  type Memory = map<int, bv8>

  datatype Cpld = Cpld(seen: Levels, hi: int, lo: int, bsl: int, mem: Memory, commits: seq<Commit>)

  const AVR_ADDR: bv8 := 0x00
  const AVR_DAT: bv8 := 0x01
  const HOST_DAT: bv8 := 0x02
  const CSR: bv8 := 0x07
  const SPI_CTL: bv8 := 0x08

  function Reg(m: Memory, addr: int): bv8 {
    if addr in m then m[addr] else 0
  }

  /** The number two bits spell. */
  function Pair(high: bool, low: bool): int {
    if high then if low then 3 else 2 else if low then 1 else 0
  }

  /** The register a byte of address reaches: the link carries its four low bits. */
  function Wired(addr: bv8): int {
    4 * Pair(addr & 8 != 0, addr & 4 != 0) + Pair(addr & 2 != 0, addr & 1 != 0)
  }

  function Index(bsl: bv8): int {
    Pair(bsl & 2 != 0, bsl & 1 != 0)
  }

  function GetSlice(byte: bv8, bsl: int): bv8 {
    if bsl == 0 then byte & 3
    else if bsl == 1 then (byte >> 2) & 3
    else if bsl == 2 then (byte >> 4) & 3
    else (byte >> 6) & 3
  }

  function PutSlice(byte: bv8, bsl: int, dat: bv8): bv8 {
    if bsl == 0 then (byte & 0xFC) | (dat & 3)
    else if bsl == 1 then (byte & 0xF3) | ((dat & 3) << 2)
    else if bsl == 2 then (byte & 0xCF) | ((dat & 3) << 4)
    else (byte & 0x3F) | ((dat & 3) << 6)
  }

  function Store(m: Memory, c: Commit): Memory {
    m[c.addr := PutSlice(Reg(m, c.addr), c.bsl, c.dat)]
  }

  function Data(n: Levels): bv8 {
    if n.ado1 then if n.ado0 then 3 else 2 else if n.ado0 then 1 else 0
  }

  /** The decoder's reaction to a change of levels (at most one strobe changes at a time). */
  function Observe(c: Cpld, n: Levels): Cpld {
    if c.seen.stb0 && !n.stb0 && n.stb1 then c.(seen := n, hi := Pair(n.ado1, n.ado0))
    else if c.seen.stb0 && !n.stb0 then c.(seen := n, bsl := Pair(n.ado1, n.ado0))
    else if !c.seen.stb0 && n.stb0 && !n.stb1 then c.(seen := n, lo := Pair(n.ado1, n.ado0))
    else if !c.seen.stb1 && n.stb1 && !n.stb0 then
      var done := Commit(4 * c.hi + c.lo, c.bsl, Data(n));
      c.(seen := n, mem := Store(c.mem, done), commits := c.commits + [done])
    else c.(seen := n)
  }

  /** The registers after a log of commits, in order. */
  function Replay(m: Memory, log: seq<Commit>): Memory
    decreases |log|
  {
    if log == [] then m else Store(Replay(m, log[..|log| - 1]), log[|log| - 1])
  }

  /** The device went from c0 to c1: its log of commits only grew, and its registers are what they
      were with the new commits applied. */
  predicate Follows(c0: Cpld, c1: Cpld) {
    c0.commits <= c1.commits && c1.mem == Replay(c0.mem, c1.commits[|c0.commits|..])
  }

  lemma {:induction false} ReplayAppends(m: Memory, a: seq<Commit>, b: seq<Commit>)
    ensures Replay(m, a + b) == Replay(Replay(m, a), b)
    decreases |b|
  {
    hide Store;
    if b == [] {
      assert a + b == a;
    } else {
      ReplayAppends(m, a, b[..|b| - 1]);
      assert (a + b)[..|a + b| - 1] == a + b[..|b| - 1];
    }
  }

  function WithLevel(n: Levels, pin: OutPin, level: bool): Levels {
    match pin
    case ADO0 => n.(ado0 := level)
    case ADO1 => n.(ado1 := level)
    case STB0 => n.(stb0 := level)
    case STB1 => n.(stb1 := level)
  }

  /** The driver moves one pin. */
  function Drive(c: Cpld, pin: OutPin, level: bool): Cpld {
    Observe(c, WithLevel(c.seen, pin, level))
  }

  /** What the two DI pins show, as DI1:DI0. */
  function Shown(c: Cpld): bv8 {
    GetSlice(Reg(c.mem, 4 * c.hi + c.lo), c.bsl)
  }

  // The phases of cpld_sdp_tx_two and cpld_sdp_rx_two, as the code separates them by udelay(1).

  function Preamble(c: Cpld): Cpld {
    Drive(Drive(c, STB0, true), STB1, true)
  }

  function Present(c: Cpld, high: bool, low: bool): Cpld {
    Drive(Drive(c, ADO1, high), ADO0, low)
  }

  function LatchHigh(c: Cpld, addr: bv8): Cpld {
    Drive(Drive(Present(c, addr & 8 != 0, addr & 4 != 0), STB0, false), STB1, false)
  }

  function LatchLow(c: Cpld, addr: bv8): Cpld {
    Drive(Present(c, addr & 2 != 0, addr & 1 != 0), STB0, true)
  }

  function LatchSlice(c: Cpld, bsl: bv8): Cpld {
    Drive(Present(c, bsl & 2 != 0, bsl & 1 != 0), STB0, false)
  }

  function StrobeData(c: Cpld, dat: bv8): Cpld {
    Drive(Drive(Present(c, dat & 2 != 0, dat & 1 != 0), STB1, true), STB1, false)
  }

  /** The twelve pin movements cpld_sdp_rx_two makes, and cpld_sdp_tx_two starts with. */
  function Select(c: Cpld, addr: bv8, bsl: bv8): Cpld {
    LatchSlice(LatchLow(LatchHigh(Preamble(c), addr), addr), bsl)
  }

  /** All sixteen pin movements of cpld_sdp_tx_two. */
  function Transmit(c: Cpld, addr: bv8, bsl: bv8, dat: bv8): Cpld {
    StrobeData(Select(c, addr, bsl), dat)
  }

  lemma PreambleIsSilent(c: Cpld)
    ensures var r := Preamble(c);
      r.mem == c.mem && r.commits == c.commits && r.seen == c.seen.(stb0 := true, stb1 := true)
  {
    var c1 := Drive(c, STB0, true);
    assert c1 == c.(seen := c.seen.(stb0 := true), lo := c1.lo);
  }

  lemma PresentShows(c: Cpld, high: bool, low: bool)
    ensures Present(c, high, low) == c.(seen := c.seen.(ado1 := high, ado0 := low))
  {
    assert Drive(c, ADO1, high) == c.(seen := c.seen.(ado1 := high));
  }

  lemma HeaderLatches(c: Cpld, addr: bv8, bsl: bv8)
    requires c.seen.stb0 && c.seen.stb1
    ensures var r := LatchSlice(LatchLow(LatchHigh(c, addr), addr), bsl);
      && r == c.(seen := r.seen, hi := Pair(addr & 8 != 0, addr & 4 != 0), lo := Pair(addr & 2 != 0, addr & 1 != 0),
                 bsl := Index(bsl))
      && !r.seen.stb0 && !r.seen.stb1
  {
    hide Pair;
    PresentShows(c, addr & 8 != 0, addr & 4 != 0);
    var c1 := LatchHigh(c, addr);
    PresentShows(c1, addr & 2 != 0, addr & 1 != 0);
    var c2 := LatchLow(c1, addr);
    PresentShows(c2, bsl & 2 != 0, bsl & 1 != 0);
  }

  /** Self-synchronisation of the header: from any levels and any latches it stores nothing
      and leaves exactly the addressed slice selected, with both strobes low. */
  lemma SelectSynchronises(c: Cpld, addr: bv8, bsl: bv8)
    ensures var r := Select(c, addr, bsl);
      && r.mem == c.mem && r.commits == c.commits
      && !r.seen.stb0 && !r.seen.stb1
      && 4 * r.hi + r.lo == Wired(addr) && r.bsl == Index(bsl)
      && Shown(r) == GetSlice(Reg(c.mem, Wired(addr)), Index(bsl))
  {
    hide Preamble, LatchHigh, LatchLow, LatchSlice;
    PreambleIsSilent(c);
    HeaderLatches(Preamble(c), addr, bsl);
  }

  lemma StrobeCommits(c: Cpld, dat: bv8)
    requires !c.seen.stb0 && !c.seen.stb1
    ensures var r := StrobeData(c, dat);
      var done := Commit(4 * c.hi + c.lo, c.bsl, dat & 3);
      && r.mem == Store(c.mem, done) && r.commits == c.commits + [done]
      && !r.seen.stb0 && !r.seen.stb1
  {
    PresentShows(c, dat & 2 != 0, dat & 1 != 0);
    var c1 := Present(c, dat & 2 != 0, dat & 1 != 0);
    assert Data(c1.seen) == dat & 3;
  }

  /** A transmitted slice causes exactly one commit, of (addr mod 16, bsl, dat), from any
      levels and any latches. */
  lemma TransmitCommitsOnce(c: Cpld, addr: bv8, bsl: bv8, dat: bv8)
    ensures var r := Transmit(c, addr, bsl, dat);
      var done := Commit(Wired(addr), Index(bsl), dat & 3);
      && r.mem == Store(c.mem, done) && r.commits == c.commits + [done]
      && !r.seen.stb0 && !r.seen.stb1
  {
    hide Select, StrobeData;
    SelectSynchronises(c, addr, bsl);
    StrobeCommits(Select(c, addr, bsl), dat);
  }

  // Whole runs of slice calls.

  datatype Call = Put(addr: bv8, bsl: bv8, dat: bv8) | Get(addr: bv8, bsl: bv8)

  /** The device after a sequence of calls, and what the Get calls among them sampled on DI. */
  function Waveform(c: Cpld, calls: seq<Call>): (Cpld, seq<bv8>)
    decreases |calls|
  {
    if calls == [] then (c, [])
    else
      var before := Waveform(c, calls[..|calls| - 1]);
      match calls[|calls| - 1]
      case Put(addr, bsl, dat) => (Transmit(before.0, addr, bsl, dat), before.1)
      case Get(addr, bsl) =>
        var after := Select(before.0, addr, bsl);
        (after, before.1 + [Shown(after)])
  }

  /** What the same calls mean to someone who knows nothing of pins: slices of a register file. */
  function Meaning(m: Memory, calls: seq<Call>): (Memory, seq<bv8>)
    decreases |calls|
  {
    if calls == [] then (m, [])
    else
      var before := Meaning(m, calls[..|calls| - 1]);
      match calls[|calls| - 1]
      case Put(addr, bsl, dat) => (Store(before.0, Commit(Wired(addr), Index(bsl), dat & 3)), before.1)
      case Get(addr, bsl) => (before.0, before.1 + [GetSlice(Reg(before.0, Wired(addr)), Index(bsl))])
  }

  /** The Put calls of a sequence, in order. */
  function Puts(calls: seq<Call>): seq<Commit>
    decreases |calls|
  {
    if calls == [] then []
    else
      var before := Puts(calls[..|calls| - 1]);
      match calls[|calls| - 1]
      case Put(addr, bsl, dat) => before + [Commit(Wired(addr), Index(bsl), dat & 3)]
      case Get(_, _) => before
  }

  /** Decoding the waveform of any sequence of calls, from any levels and latches, yields that
      sequence's own list of writes, and every read sampled what the preceding writes left. */
  lemma {:induction false} WaveformDecodes(c: Cpld, calls: seq<Call>)
    ensures var r := Waveform(c, calls);
      && r.0.commits == c.commits + Puts(calls)
      && (r.0.mem, r.1) == Meaning(c.mem, calls)
    decreases |calls|
  {
    hide Transmit, Select, Store, Shown, GetSlice;
    if calls == [] {
    } else {
      WaveformDecodes(c, calls[..|calls| - 1]);
      var before := Waveform(c, calls[..|calls| - 1]).0;
      match calls[|calls| - 1]
      case Put(addr, bsl, dat) => TransmitCommitsOnce(before, addr, bsl, dat);
      case Get(addr, bsl) => SelectSynchronises(before, addr, bsl);
    }
  }

  // Bytes: cpld_sdp_write sends slices 0 to 3, cpld_sdp_read samples them and puts them together.

  function TransmitByte(c: Cpld, addr: bv8, data: bv8): Cpld {
    Transmit(Transmit(Transmit(Transmit(c, addr, 0, data & 3), addr, 1, (data >> 2) & 3),
             addr, 2, (data >> 4) & 3), addr, 3, (data >> 6) & 3)
  }

  function FourCommits(addr: bv8, data: bv8): seq<Commit> {
    [Commit(Wired(addr), 0, data & 3), Commit(Wired(addr), 1, (data >> 2) & 3),
     Commit(Wired(addr), 2, (data >> 4) & 3), Commit(Wired(addr), 3, (data >> 6) & 3)]
  }

  lemma SlicesMakeByte(byte: bv8, data: bv8)
    ensures PutSlice(PutSlice(PutSlice(PutSlice(byte, 0, data & 3), 1, (data >> 2) & 3),
                     2, (data >> 4) & 3), 3, (data >> 6) & 3) == data
    ensures GetSlice(data, 0) | (GetSlice(data, 1) << 2) | (GetSlice(data, 2) << 4) | (GetSlice(data, 3) << 6) == data
  {
  }

  lemma SliceNumbers(data: bv8)
    ensures Index(0) == 0 && Index(1) == 1 && Index(2) == 2 && Index(3) == 3
    ensures data & 3 & 3 == data & 3 && ((data >> 2) & 3) & 3 == (data >> 2) & 3
    ensures ((data >> 4) & 3) & 3 == (data >> 4) & 3 && ((data >> 6) & 3) & 3 == (data >> 6) & 3
  {
  }

  lemma FourInARow<T>(s: seq<T>, a: T, b: T, c: T, d: T)
    ensures s + [a] + [b] + [c] + [d] == s + [a, b, c, d]
  {
  }

  lemma StoreAgain(m: Memory, a: int, x: bv8, bsl: int, dat: bv8)
    ensures Store(m[a := x], Commit(a, bsl, dat)) == m[a := PutSlice(x, bsl, dat)]
  {
    assert m[a := x][a := PutSlice(x, bsl, dat)] == m[a := PutSlice(x, bsl, dat)];
  }

  lemma StoreSlices(m: Memory, a: int, data: bv8)
    ensures Store(Store(Store(Store(m, Commit(a, 0, data & 3)), Commit(a, 1, (data >> 2) & 3)),
                  Commit(a, 2, (data >> 4) & 3)), Commit(a, 3, (data >> 6) & 3)) == m[a := data]
  {
    var x0 := PutSlice(Reg(m, a), 0, data & 3);
    var x1 := PutSlice(x0, 1, (data >> 2) & 3);
    var x2 := PutSlice(x1, 2, (data >> 4) & 3);
    StoreAgain(m, a, x0, 1, (data >> 2) & 3);
    StoreAgain(m, a, x1, 2, (data >> 4) & 3);
    StoreAgain(m, a, x2, 3, (data >> 6) & 3);
    SlicesMakeByte(Reg(m, a), data);
  }

  /** Four transmitted slices store the byte at the address and touch no other register. */
  lemma TransmitByteStores(c: Cpld, addr: bv8, data: bv8)
    ensures var r := TransmitByte(c, addr, data);
      && r.mem == c.mem[Wired(addr) := data]
      && r.commits == c.commits + FourCommits(addr, data)
      && !r.seen.stb0 && !r.seen.stb1
  {
    hide Transmit, Store, PutSlice, Wired, Index;
    SliceNumbers(data);
    var d0, d1, d2, d3 := data & 3, (data >> 2) & 3, (data >> 4) & 3, (data >> 6) & 3;
    var a := Wired(addr);
    FourInARow(c.commits, Commit(a, 0, d0), Commit(a, 1, d1), Commit(a, 2, d2), Commit(a, 3, d3));
    var c1 := Transmit(c, addr, 0, d0);
    var c2 := Transmit(c1, addr, 1, d1);
    var c3 := Transmit(c2, addr, 2, d2);
    TransmitCommitsOnce(c, addr, 0, d0);
    TransmitCommitsOnce(c1, addr, 1, d1);
    TransmitCommitsOnce(c2, addr, 2, d2);
    TransmitCommitsOnce(c3, addr, 3, d3);
    StoreSlices(c.mem, a, data);
  }
}
