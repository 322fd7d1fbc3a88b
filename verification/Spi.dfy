/** Programming the card's AVR over SPI lines that the CPLD exposes in register SPI_CTL, module/spi.c. */
module Spi {
  import CpldDevice
  import PinTransport

  /** A word of program memory, as its two bytes. */
  datatype Word = Word(lo: int, hi: int)

  predicate IsByte(n: int) {
    0 <= n < 256
  }

  type Bit = n: int | n == 0 || n == 1

  function Parity(n: int): Bit {
    n % 2
  }

  function Half(n: int): int {
    n / 2
  }

  /** The bits of a byte, most significant first. */
  function BitsOf(n: int): (r: seq<Bit>)
    ensures |r| == 8
  {
    var q1 := Half(n);
    var q2 := Half(q1);
    var q3 := Half(q2);
    var q4 := Half(q3);
    var q5 := Half(q4);
    var q6 := Half(q5);
    var q7 := Half(q6);
    [Parity(q7), Parity(q6), Parity(q5), Parity(q4), Parity(q3), Parity(q2), Parity(q1), Parity(n)]
  }

  function ValueOf(b: seq<Bit>): (n: int)
    requires |b| == 8
    ensures IsByte(n)
  {
    var v: seq<int> := b;
    128 * v[0] + 64 * v[1] + 32 * v[2] + 16 * v[3] + 8 * v[4] + 4 * v[5] + 2 * v[6] + v[7]
  }

  lemma Halves(n: int, bound: int)
    requires 0 <= n < 2 * bound
    ensures n == 2 * Half(n) + Parity(n) && 0 <= Half(n) < bound
  {
  }

  lemma BitsRoundTrip(n: int)
    requires IsByte(n)
    ensures ValueOf(BitsOf(n)) == n
  {
    hide Parity, Half;
    var q1 := Half(n);
    var q2 := Half(q1);
    var q3 := Half(q2);
    var q4 := Half(q3);
    var q5 := Half(q4);
    var q6 := Half(q5);
    var q7 := Half(q6);
    Halves(n, 128);
    Halves(q1, 64);
    Halves(q2, 32);
    Halves(q3, 16);
    Halves(q4, 8);
    Halves(q5, 4);
    Halves(q6, 2);
    Halves(q7, 1);
  }

  const FLASH_WORDS := 4096
  const PAGE_WORDS := 32

  /** The AVR's serial programming engine: bits of the byte coming in, the byte going out, bytes of the
      instruction so far, the page buffer and the program memory. */
  datatype Avr = Avr(bits: seq<Bit>, out: seq<Bit>, ins: seq<int>, enabled: bool,
                     page: seq<Word>, flash: seq<Word>, signature: seq<int>)

  predicate Shaped(a: Avr) {
    && |a.bits| < 8 && |a.out| == 8 && |a.ins| < 4
    && |a.page| == PAGE_WORDS && |a.flash| == FLASH_WORDS && |a.signature| == 4
    && (forall k :: 0 <= k < FLASH_WORDS ==> IsByte(a.flash[k].lo) && IsByte(a.flash[k].hi))
    && (forall k :: 0 <= k < PAGE_WORDS ==> IsByte(a.page[k].lo) && IsByte(a.page[k].hi))
    && (forall k :: 0 <= k < 4 ==> IsByte(a.signature[k]))
    && (forall k :: 0 <= k < |a.ins| ==> IsByte(a.ins[k]))
  }

  // The Serial Programming Instruction Set of the ATmega8.

  function WordAddress(high: int, low: int): int {
    high % 16 * 256 + low
  }

  /** What the fourth byte of a read instruction shifts out. */
  function Answer(a: Avr, b0: int, b1: int, b2: int): int
    requires Shaped(a) && IsByte(b1) && IsByte(b2)
  {
    if b0 == 0x20 then a.flash[WordAddress(b1, b2)].lo
    else if b0 == 0x28 then a.flash[WordAddress(b1, b2)].hi
    else if b0 == 0x30 then a.signature[b2 % 4]
    else 0
  }

  function PageBase(high: int, low: int): int {
    WordAddress(high, low) / PAGE_WORDS * PAGE_WORDS
  }

  function WithPage(flash: seq<Word>, base: int, page: seq<Word>): seq<Word>
    requires 0 <= base && base + |page| <= |flash|
  {
    flash[..base] + page + flash[base + |page|..]
  }

  /** What a complete instruction does. */
  function Execute(a: Avr, b0: int, b1: int, b2: int, b3: int): Avr
    requires Shaped(a) && IsByte(b1) && IsByte(b2)
  {
    if b0 == 0xAC && b1 == 0x53 then a.(enabled := true)
    else if !a.enabled then a
    else if b0 == 0x40 then a.(page := a.page[b2 % 32 := a.page[b2 % 32].(lo := b3)])
    else if b0 == 0x48 then a.(page := a.page[b2 % 32 := a.page[b2 % 32].(hi := b3)])
    else if b0 == 0x4C then a.(flash := WithPage(a.flash, PageBase(b1, b2), a.page))
    else a
  }

  /** A byte has come in: the third one of an instruction loads the answer, the fourth executes it. */
  function ByteIn(a: Avr, b: int): Avr
    requires Shaped(a) && IsByte(b)
  {
    if |a.ins| == 3 then Execute(a, a.ins[0], a.ins[1], a.ins[2], b).(bits := [], ins := [], out := BitsOf(b))
    else if |a.ins| == 2 then a.(bits := [], ins := a.ins + [b], out := BitsOf(Answer(a, a.ins[0], a.ins[1], b)))
    else a.(bits := [], ins := a.ins + [b], out := BitsOf(b))
  }

  lemma ByteInKeepsShape(a: Avr, b: int)
    requires Shaped(a) && IsByte(b)
    ensures Shaped(ByteIn(a, b))
  {
  }

  /** SPI mode 0: MOSI is taken on the rising edge of the clock, MISO moves on the falling edge. */
  function Rise(a: Avr, mosi: Bit): Avr {
    a.(bits := a.bits + [mosi])
  }

  function Fall(a: Avr): Avr
    requires |a.out| == 8
    requires |a.bits| == 8 ==> Shaped(a.(bits := []))
  {
    if |a.bits| == 8 then ByteIn(a.(bits := []), ValueOf(a.bits)) else a.(out := a.out[1..] + [0])
  }

  // The driver's side.

  /** Two bits of a slice; in slice 2 of SPI_CTL low is the clock and high is MOSI, in slice 3 high is
      MISO, and the low bit of slice 0 restarts the AVR's engine when it changes. */
  datatype Two = Two(high: Bit, low: Bit)

  function TwoOf(dat: bv8): Two {
    Two(if dat & 2 != 0 then 1 else 0, if dat & 1 != 0 then 1 else 0)
  }

  function DatOf(two: Two): bv8 {
    if two.high == 1 then if two.low == 1 then 3 else 2 else if two.low == 1 then 1 else 0
  }

  /** A slice of SPI_CTL as the CPLD holds it. */
  function Slice(c: CpldDevice.Cpld, k: int): Two {
    TwoOf(CpldDevice.GetSlice(CpldDevice.Reg(c.mem, 8), k))
  }

  /** Storing a slice of a register changes that slice and no other. */
  lemma SliceStored(byte: bv8, k: int, dat: bv8, j: int)
    requires 0 <= k < 4 && 0 <= j < 4
    ensures CpldDevice.GetSlice(CpldDevice.PutSlice(byte, k, dat), j)
         == if j == k then dat & 3 else CpldDevice.GetSlice(byte, j)
  {
  }

  lemma TwoRoundTrip(two: Two, dat: bv8)
    ensures TwoOf(DatOf(two)) == two && DatOf(two) & 3 == DatOf(two) && TwoOf(dat & 3) == TwoOf(dat)
  {
  }

  lemma Numbers()
    ensures CpldDevice.Wired(CpldDevice.SPI_CTL) == 8 && CpldDevice.Wired(CpldDevice.CSR) == 7
    ensures CpldDevice.Index(0) == 0 && CpldDevice.Index(2) == 2 && CpldDevice.Index(3) == 3
  {
  }

  /** What cpld_tx_two does to SPI_CTL. */
  lemma TransmitSetsSlice(c: CpldDevice.Cpld, bsl: bv8, val: Two, j: int)
    requires bsl == 0 || bsl == 2
    requires 0 <= j < 4
    ensures Slice(CpldDevice.Transmit(c, CpldDevice.SPI_CTL, bsl, DatOf(val)), j)
      == if j == CpldDevice.Index(bsl) then val else Slice(c, j)
  {
    CpldDevice.TransmitCommitsOnce(c, CpldDevice.SPI_CTL, bsl, DatOf(val));
    Numbers();
    TwoRoundTrip(val, 0);
    SliceStored(CpldDevice.Reg(c.mem, 8), CpldDevice.Index(bsl), DatOf(val) & 3, j);
    hide CpldDevice.Transmit, CpldDevice.PutSlice, CpldDevice.GetSlice, TwoOf, DatOf;
  }

  lemma TransmitKeepsCsr(c: CpldDevice.Cpld, bsl: bv8, dat: bv8)
    ensures CpldDevice.Reg(CpldDevice.Transmit(c, CpldDevice.SPI_CTL, bsl, dat).mem, 7) == CpldDevice.Reg(c.mem, 7)
  {
    CpldDevice.TransmitCommitsOnce(c, CpldDevice.SPI_CTL, bsl, dat);
    Numbers();
    hide CpldDevice.Transmit, CpldDevice.PutSlice;
  }

  lemma TransmitSetsCsr(c: CpldDevice.Cpld)
    ensures CpldDevice.Reg(CpldDevice.Transmit(c, CpldDevice.CSR, 0, 2).mem, 7)
         == (CpldDevice.Reg(c.mem, 7) & 0xFC) | 0x02
  {
    CpldDevice.TransmitCommitsOnce(c, CpldDevice.CSR, 0, 2);
    Numbers();
    hide CpldDevice.Transmit;
  }

  lemma TransmitElsewhere(c: CpldDevice.Cpld, bsl: bv8, dat: bv8, j: int)
    ensures Slice(CpldDevice.Transmit(c, CpldDevice.CSR, bsl, dat), j) == Slice(c, j)
  {
    CpldDevice.TransmitCommitsOnce(c, CpldDevice.CSR, bsl, dat);
    Numbers();
    hide CpldDevice.Transmit, CpldDevice.PutSlice, CpldDevice.GetSlice, TwoOf;
  }

  /** What cpld_rx_two finds in SPI_CTL. */
  lemma SelectShowsSlice(c: CpldDevice.Cpld, bsl: bv8)
    requires bsl == 0 || bsl == 2 || bsl == 3
    ensures var r := CpldDevice.Select(c, CpldDevice.SPI_CTL, bsl);
      r.mem == c.mem && TwoOf(CpldDevice.Shown(r) & 3) == Slice(c, CpldDevice.Index(bsl))
  {
    CpldDevice.SelectSynchronises(c, CpldDevice.SPI_CTL, bsl);
    Numbers();
    TwoRoundTrip(Two(0, 0), CpldDevice.Shown(CpldDevice.Select(c, CpldDevice.SPI_CTL, bsl)));
    hide CpldDevice.Select, CpldDevice.Shown, CpldDevice.GetSlice, TwoOf;
  }

  function Restarted(a: Avr): Avr {
    a.(bits := [], out := BitsOf(0), ins := [], enabled := false)
  }

  function Zeros(n: nat): seq<Bit> {
    seq(n, _ => 0)
  }

  /** A shift register after n shifts to the left. */
  function Shifted(b: seq<Bit>, n: nat): seq<Bit>
    requires n <= |b|
  {
    b[n..] + Zeros(n)
  }

  lemma ShiftsOn(b: seq<Bit>, n: nat)
    requires n < |b|
    ensures Shifted(b, n)[0] == b[n]
    ensures Shifted(b, n)[1..] + [0] == Shifted(b, n + 1)
  {
  }

  /** The AVR in the middle of a byte, after the first n of its bits. */
  function Midway(a: Avr, byte: seq<Bit>, n: nat): Avr
    requires Shaped(a) && |byte| == 8 && n <= 8
  {
    if n < 8 then a.(bits := byte[..n], out := Shifted(a.out, n)) else ByteIn(a, ValueOf(byte))
  }

  /** One clock pulse carries one bit. */
  lemma PulseCarriesBit(a: Avr, byte: seq<Bit>, n: nat)
    requires Shaped(a) && a.bits == [] && |byte| == 8 && n < 8
    ensures |Rise(Midway(a, byte, n), byte[n]).out| == 8
    ensures n == 7 ==> Shaped(Rise(Midway(a, byte, n), byte[n]).(bits := []))
    ensures |Rise(Midway(a, byte, n), byte[n]).bits| == n + 1
    ensures Fall(Rise(Midway(a, byte, n), byte[n])) == Midway(a, byte, n + 1)
  {
    hide Shifted;
    ShiftedLength(a.out, n);
    ShiftsOn(a.out, n);
    assert byte[..n] + [byte[n]] == byte[..n + 1];
    if n == 7 {
      assert byte[..8] == byte;
      ByteInIgnoresShift(a, Shifted(a.out, 7), ValueOf(byte));
    }
  }

  lemma ShiftedLength(b: seq<Bit>, n: nat)
    requires n <= |b|
    ensures |Shifted(b, n)| == |b|
  {
  }

  lemma ByteInIgnoresShift(a: Avr, out: seq<Bit>, b: int)
    requires Shaped(a) && IsByte(b) && a.bits == [] && |out| == 8
    ensures ByteIn(a.(out := out), b) == ByteIn(a, b)
  {
  }

  /** The number spelled by the first n bits. */
  function Front(b: seq<Bit>, n: nat): int
    requires n <= |b|
  {
    if n == 0 then 0 else var last: int := b[n - 1]; 2 * Front(b, n - 1) + last
  }

  lemma NoFront(b: seq<Bit>)
    ensures Front(b, 0) == 0
  {
  }

  /** The next bit goes where a doubled number has a zero. */
  lemma FrontGrows(b: seq<Bit>, n: nat)
    requires n < |b|
    ensures Front(b, n + 1) == 2 * Front(b, n) + (if b[n] == 1 then 1 else 0) && 2 * Front(b, n) % 2 == 0
  {
  }

  lemma FrontIsValue(b: seq<Bit>)
    requires |b| == 8
    ensures Front(b, 8) == ValueOf(b)
  {
    var v: seq<int> := b;
    assert Front(b, 1) == 2 * Front(b, 0) + v[0];
    assert Front(b, 2) == 2 * Front(b, 1) + v[1];
    assert Front(b, 3) == 2 * Front(b, 2) + v[2];
    assert Front(b, 4) == 2 * Front(b, 3) + v[3];
    assert Front(b, 5) == 2 * Front(b, 4) + v[4];
    assert Front(b, 6) == 2 * Front(b, 5) + v[5];
    assert Front(b, 7) == 2 * Front(b, 6) + v[6];
  }

  /** The byte that comes in while the driver only listens: MOSI stays where it was. */
  function Held(mosi: Bit): seq<Bit> {
    [mosi, mosi, mosi, mosi, mosi, mosi, mosi, mosi]
  }

  // Instructions.

  /** After three bytes of an instruction its answer is ready to be shifted out. */
  function Third(a: Avr, b0: int, b1: int, b2: int): Avr
    requires Shaped(a) && IsByte(b1) && IsByte(b2)
  {
    a.(bits := [], ins := [b0, b1, b2], out := BitsOf(Answer(a, b0, b1, b2)))
  }

  function Done(a: Avr, b0: int, b1: int, b2: int, b3: int): Avr
    requires Shaped(a) && IsByte(b1) && IsByte(b2)
  {
    Execute(a, b0, b1, b2, b3).(bits := [], ins := [], out := BitsOf(b3))
  }

  lemma AnswerIsByte(a: Avr, b0: int, b1: int, b2: int)
    requires Shaped(a) && IsByte(b1) && IsByte(b2)
    ensures IsByte(Answer(a, b0, b1, b2))
  {
  }

  lemma ThreeBytes(a: Avr, b0: int, b1: int, b2: int)
    requires Shaped(a) && a.ins == [] && IsByte(b0) && IsByte(b1) && IsByte(b2)
    ensures Shaped(ByteIn(a, b0)) && Shaped(ByteIn(ByteIn(a, b0), b1))
    ensures ByteIn(ByteIn(ByteIn(a, b0), b1), b2) == Third(a, b0, b1, b2)
  {
    hide Answer, BitsOf;
    ByteInKeepsShape(a, b0);
    var a1 := ByteIn(a, b0);
    ByteInKeepsShape(a1, b1);
    var a2 := ByteIn(a1, b1);
    assert a2 == a.(bits := [], ins := [b0, b1], out := BitsOf(b1));
    AnswerFromMemory(a, a2, b0, b1, b2);
  }

  lemma AnswerFromMemory(a: Avr, a2: Avr, b0: int, b1: int, b2: int)
    requires Shaped(a) && Shaped(a2) && IsByte(b1) && IsByte(b2) && a2.flash == a.flash && a2.signature == a.signature
    ensures Answer(a2, b0, b1, b2) == Answer(a, b0, b1, b2)
  {
  }

  lemma FourthByte(a: Avr, b0: int, b1: int, b2: int, b3: int)
    requires Shaped(a) && IsByte(b0) && IsByte(b1) && IsByte(b2) && IsByte(b3)
    ensures Shaped(Third(a, b0, b1, b2))
    ensures ByteIn(Third(a, b0, b1, b2), b3) == Done(a, b0, b1, b2, b3)
  {
    hide BitsOf, Answer;
  }

  /** The AVR behind slices of SPI_CTL, reached over the pins. resets lists the levels put on its reset line. */
  class SpiPort {
    const pins: PinTransport.PinBus
    var avr: Avr
    var locked: bool
    ghost var resets: seq<Bit>

    constructor (pins: PinTransport.PinBus, avr: Avr)
      ensures this.pins == pins && this.avr == avr && !locked
    {
      this.pins, this.avr, this.locked := pins, avr, false;
    }

    /** No strike is to come and the pins are driven. */
    ghost predicate Linked()
      reads pins
    {
      pins.Valid() && pins.Driving() && pins.StrikesLeft() == 0
    }

    function Reset(): Two
      reads pins`board
    {
      Slice(pins.board.cpld, 0)
    }

    function Lines(): Two
      reads pins`board
    {
      Slice(pins.board.cpld, 2)
    }

    function Csr(): bv8
      reads pins`board
    {
      CpldDevice.Reg(pins.board.cpld.mem, 7)
    }

    /** The clock is low and the AVR is between two bytes. */
    ghost predicate Ready()
      reads this, pins
    {
      Linked() && Shaped(avr) && Lines().low == 0 && avr.bits == []
    }

    /** The AVR is between two instructions. */
    ghost predicate Idle()
      reads this, pins
    {
      Ready() && avr.ins == []
    }

    /** cpld_tx_two(hw, SPI_CTL, 2, val): the AVR sees the clock move. On a rising edge it takes the level that MOSI
        had before. */
    method TxLines(val: Two)
      requires Linked() && |avr.out| == 8 && (|avr.bits| == 8 ==> Shaped(avr.(bits := [])))
      modifies pins, this`avr
      ensures Linked() && Lines() == val && Reset() == old(Reset()) && Csr() == old(Csr())
      ensures avr == if old(Lines()).low == 0 && val.low == 1 then Rise(old(avr), old(Lines()).high)
                     else if old(Lines()).low == 1 && val.low == 0 then Fall(old(avr))
                     else old(avr)
    {
      hide Slice, DatOf, TwoOf, Fall, Rise, Shaped, CpldDevice.Transmit;
      var before := Lines();
      Numbers();
      TransmitSetsSlice(pins.board.cpld, 2, val, 2);
      TransmitSetsSlice(pins.board.cpld, 2, val, 0);
      TransmitKeepsCsr(pins.board.cpld, 2, DatOf(val));
      pins.TxTwo(CpldDevice.SPI_CTL, 2, DatOf(val));
      if before.low == 0 && val.low == 1 {
        avr := Rise(avr, before.high);
      } else if before.low == 1 && val.low == 0 {
        avr := Fall(avr);
      }
    }

    /** cpld_rx_two(hw, SPI_CTL, k, ...) of a slice the driver itself has set. */
    method RxSlice(bsl: bv8) returns (val: Two)
      requires Linked() && (bsl == 0 || bsl == 2)
      modifies pins
      ensures Linked() && Lines() == old(Lines()) && Reset() == old(Reset()) && Csr() == old(Csr())
      ensures val == if bsl == 0 then Reset() else Lines()
    {
      hide Slice, TwoOf, CpldDevice.Select, CpldDevice.Shown;
      Numbers();
      SelectShowsSlice(pins.board.cpld, bsl);
      SelectKeepsSlices(pins.board.cpld, bsl);
      var dat := pins.RxTwo(CpldDevice.SPI_CTL, bsl);
      val := TwoOf(dat);
    }

    /** cpld_rx_two(hw, SPI_CTL, 3, ...): the AVR puts the level of MISO there. */
    method RxMiso() returns (val: Two)
      requires Linked() && |avr.out| == 8
      modifies pins
      ensures Linked() && Lines() == old(Lines()) && Reset() == old(Reset()) && Csr() == old(Csr())
      ensures val.high == avr.out[0]
    {
      hide Slice, TwoOf, CpldDevice.Select, CpldDevice.Shown, CpldDevice.PutSlice, CpldDevice.GetSlice;
      Numbers();
      var ctl := CpldDevice.Reg(pins.board.cpld.mem, 8);
      var shown := if avr.out[0] == 1 then 2 else 0;
      MisoStored(pins.board.cpld, shown);
      pins.Outside(8, CpldDevice.PutSlice(ctl, 3, shown));
      SelectShowsSlice(pins.board.cpld, 3);
      SelectKeepsSlices(pins.board.cpld, 3);
      var dat := pins.RxTwo(CpldDevice.SPI_CTL, 3);
      val := TwoOf(dat);
      assert TwoOf(shown).high == avr.out[0] by {
        MisoIsHigh(avr.out[0]);
      }
    }

    /** cpld_spi_tx: the AVR receives exactly the byte sent, and the clock is low again. */
    method Tx(value: int)
      requires Ready() && IsByte(value)
      modifies pins, this`avr
      ensures Ready() && Reset() == old(Reset())
      ensures avr == ByteIn(old(avr), value)
    {
      hide Shifted, Midway, ByteIn, Fall, BitsOf, Shaped, Slice, Linked;
      ghost var a0, byte := avr, BitsOf(value);
      MidwayEnds(a0, byte);
      BitsRoundTrip(value);
      ByteInKeepsShape(a0, value);
      var txData := BitsOf(value);
      var cpldSpi := RxSlice(2);
      for i := 0 to 8
        invariant Linked() && Reset() == old(Reset()) && Lines().low == 0 && cpldSpi.low == 0
        invariant txData == Shifted(byte, i)
        invariant avr == Midway(a0, byte, i)
      {
        ShiftedLength(byte, i);
        ShiftsOn(byte, i);
        PulseCarriesBit(a0, byte, i);
        if txData[0] == 1 {
          cpldSpi := cpldSpi.(high := 1);
        } else {
          cpldSpi := cpldSpi.(high := 0);
        }
        TxLines(cpldSpi);
        cpldSpi := cpldSpi.(low := 1);
        TxLines(cpldSpi);
        cpldSpi := cpldSpi.(low := 0);
        TxLines(cpldSpi);
        txData := txData[1..] + [0];
      }
    }

    /** cpld_spi_rx: returns exactly the byte the AVR shifts out, first bit first; the AVR meanwhile
        receives eight times the level MOSI was left at. */
    method Rx() returns (rxData: int)
      requires Ready()
      modifies pins, this`avr
      ensures Ready() && Reset() == old(Reset()) && Lines().high == old(Lines().high)
      ensures rxData == ValueOf(old(avr).out)
      ensures avr == ByteIn(old(avr), ValueOf(Held(old(Lines().high))))
    {
      hide Shifted, Midway, ByteIn, Fall, BitsOf, Shaped, ValueOf, Slice, Linked;
      ghost var a0, byte := avr, Held(Lines().high);
      MidwayEnds(a0, byte);
      ValueIsByte(byte);
      ByteInKeepsShape(a0, ValueOf(byte));
      ShapedOut(a0);
      FrontIsValue(a0.out);
      NoFront(a0.out);
      hide Front;
      rxData := 0;
      var cpldSpi := RxSlice(2);
      for i := 0 to 8
        invariant Linked() && Reset() == old(Reset()) && Lines().low == 0
        invariant cpldSpi == Lines() && Lines().high == old(Lines().high)
        invariant avr == Midway(a0, byte, i)
        invariant rxData == if i < 8 then 2 * Front(a0.out, i) else Front(a0.out, 8)
      {
        PulseCarriesBit(a0, byte, i);
        MidwayShowsBit(a0, byte, i);
        FrontGrows(a0.out, i);
        cpldSpi := cpldSpi.(low := 1);
        TxLines(cpldSpi);
        var miso := RxMiso();
        if miso.high == 1 {
          rxData := rxData - rxData % 2 + 1;
        } else {
          rxData := rxData - rxData % 2;
        }
        if i < 7 {
          rxData := rxData * 2;
        }
        cpldSpi := cpldSpi.(low := 0);
        TxLines(cpldSpi);
      }
    }

    /** cpld_tx_two(hw, SPI_CTL, 0, val) */
    method TxReset(val: Two)
      requires Linked()
      modifies pins, this`avr, this`resets
      ensures Linked() && Reset() == val && Lines() == old(Lines()) && Csr() == old(Csr())
      ensures resets == old(resets) + [val.low]
      ensures avr == if val.low != old(Reset()).low then Restarted(old(avr)) else old(avr)
    {
      hide Slice, DatOf, TwoOf, CpldDevice.Transmit;
      var before := Reset();
      Numbers();
      TransmitSetsSlice(pins.board.cpld, 0, val, 2);
      TransmitSetsSlice(pins.board.cpld, 0, val, 0);
      TransmitKeepsCsr(pins.board.cpld, 0, DatOf(val));
      pins.TxTwo(CpldDevice.SPI_CTL, 0, DatOf(val));
      resets := resets + [val.low];
      if val.low != before.low {
        avr := Restarted(avr);
      }
    }

    /** cpld_tx_two(hw, CSR, 0, 2) */
    method TxCsr()
      requires Linked()
      modifies pins
      ensures Linked() && Reset() == old(Reset()) && Lines() == old(Lines())
      ensures Csr() == (old(Csr()) & 0xFC) | 0x02
    {
      hide Slice, CpldDevice.Transmit;
      TransmitElsewhere(pins.board.cpld, 0, 2, 0);
      TransmitElsewhere(pins.board.cpld, 0, 2, 2);
      TransmitSetsCsr(pins.board.cpld);
      pins.TxTwo(CpldDevice.CSR, 0, 2);
    }

    /** cpld_spi_init: whatever state the lines and the AVR's engine were in, the clock is low, the
        engine starts afresh after two full pulses on the reset line, which ends high, and no memory has
        changed. */
    method Init()
      requires Linked() && !locked && Shaped(avr)
      modifies this, pins
      ensures locked && Idle() && !avr.enabled
      ensures SameMemory(old(avr), avr) && Csr() == (old(Csr()) & 0xFC) | 0x02
      ensures resets == old(resets) + [1, 0, 1, 0, 1]
      ensures Reset() == old(Reset()).(low := 1) && Lines() == old(Lines()).(low := 0)
    {
      hide Slice, Linked, Lines, Reset, Csr, BitsOf;
      locked := true;
      TxCsr();
      var rstCtrl := RxSlice(0);
      var cpuSpi := RxSlice(2);
      rstCtrl := rstCtrl.(low := 1);
      TxReset(rstCtrl);
      cpuSpi := cpuSpi.(low := 0);
      TxLines(cpuSpi);
      rstCtrl := Pulse(rstCtrl);
      rstCtrl := Pulse(rstCtrl);
    }

    /** The reset line goes low and high again. */
    method Pulse(before: Two) returns (rstCtrl: Two)
      requires Linked() && Reset() == before && before.low == 1
      modifies pins, this`avr, this`resets
      ensures Linked() && Reset() == before == rstCtrl && Lines() == old(Lines()) && Csr() == old(Csr())
      ensures resets == old(resets) + [0, 1] && avr == Restarted(old(avr))
    {
      hide Slice, Linked, Lines, Reset, Csr, BitsOf;
      rstCtrl := before.(low := 0);
      TxReset(rstCtrl);
      rstCtrl := rstCtrl.(low := 1);
      TxReset(rstCtrl);
    }

    /** cpld_spi_exit: the engine is left restarted by a pulse on the reset line, which ends low. */
    method Exit()
      requires locked && Ready()
      modifies this, pins
      ensures !locked && Linked() && Shaped(avr) && Lines().low == 0
      ensures SameMemory(old(avr), avr) && Csr() == old(Csr())
      ensures resets == old(resets) + [0, 1, 0] && !avr.enabled && avr.ins == [] && avr.bits == []
      ensures Reset() == old(Reset()).(low := 0) && Lines() == old(Lines()).(low := 0)
    {
      hide Slice, Linked, Lines, Reset, Csr, BitsOf, Fall;
      ShapedOut(avr);
      var rstCtrl := RxSlice(0);
      var cpuSpi := RxSlice(2);
      cpuSpi := cpuSpi.(low := 0);
      TxLines(cpuSpi);
      rstCtrl := rstCtrl.(low := 0);
      TxReset(rstCtrl);
      rstCtrl := rstCtrl.(low := 1);
      TxReset(rstCtrl);
      rstCtrl := rstCtrl.(low := 0);
      TxReset(rstCtrl);
      locked := false;
    }

    /** Four SPI_PROG_TX calls: one complete instruction. */
    method Instruct(b0: int, b1: int, b2: int, b3: int)
      requires Idle() && IsByte(b0) && IsByte(b1) && IsByte(b2) && IsByte(b3)
      modifies pins, this`avr
      ensures Idle()
      ensures avr == Done(old(avr), b0, b1, b2, b3)
    {
      hide ByteIn, Third, Done, Shaped, Slice, Linked;
      ThreeBytes(avr, b0, b1, b2);
      FourthByte(avr, b0, b1, b2, b3);
      DoneIsIdle(avr, b0, b1, b2, b3);
      Tx(b0);
      Tx(b1);
      Tx(b2);
      Tx(b3);
    }

    /** Three SPI_PROG_TX calls and an SPI_PROG_RX: the answer of a read instruction. */
    method Ask(b0: int, b1: int, b2: int) returns (value: int)
      requires Idle() && IsByte(b0) && IsByte(b1) && IsByte(b2)
      requires b0 == 0x20 || b0 == 0x28 || b0 == 0x30
      modifies pins, this`avr
      ensures Idle() && SameMemory(old(avr), avr) && avr.enabled == old(avr).enabled
      ensures value == Answer(old(avr), b0, b1, b2)
    {
      hide ByteIn, Third, Done, Shaped, ValueOf, Answer, Slice, Linked;
      ThreeBytes(avr, b0, b1, b2);
      ThirdOut(avr, b0, b1, b2);
      Tx(b0);
      Tx(b1);
      Tx(b2);
      ghost var b3 := ValueOf(Held(Lines().high));
      ValueIsByte(Held(Lines().high));
      FourthByte(old(avr), b0, b1, b2, b3);
      DoneIsIdle(old(avr), b0, b1, b2, b3);
      value := Rx();
    }

    /** n22xxp_isp_avr_enter_prog_mode. */
    method EnterProgMode()
      requires Idle()
      modifies pins, this`avr
      ensures Idle() && avr.enabled && SameMemory(old(avr), avr)
    {
      Instruct(0xAC, 0x53, 0x00, 0x00);
    }

    /** spi_read_sig: the three signature bytes, and the port is as before: unlocked, clock low. */
    method ReadSig() returns (res: int)
      requires Linked() && !locked && Shaped(avr)
      modifies this, pins
      ensures Linked() && !locked && Shaped(avr) && SameMemory(old(avr), avr)
      ensures resets == old(resets) + [1, 0, 1, 0, 1, 0, 1, 0] && !avr.enabled && Lines().low == 0
      ensures res == 0x10000 * avr.signature[0] + 0x100 * avr.signature[1] + avr.signature[2]
    {
      hide Slice, Linked, Shaped, Answer;
      SignatureAnswers(avr, 0);
      res := 0;
      Init();
      EnterProgMode();
      for i := 0 to 3
        invariant locked && Idle() && SameMemory(old(avr), avr)
        invariant resets == old(resets) + [1, 0, 1, 0, 1]
        invariant res == if i == 0 then 0 else if i == 1 then avr.signature[0]
                         else if i == 2 then 0x100 * avr.signature[0] + avr.signature[1]
                         else 0x10000 * avr.signature[0] + 0x100 * avr.signature[1] + avr.signature[2]
      {
        SignatureAnswers(avr, i);
        var byte := Ask(0x30, 0x00, 0x00 + i);
        res := res * 0x100 + byte;
      }
      Exit();
    }

    /** n22xxp_isp_avr_prog_page_load: the page buffer holds the given words. */
    method PageLoad(value: seq<Word>)
      requires Idle() && avr.enabled && |value| == PAGE_WORDS
      requires forall k :: 0 <= k < PAGE_WORDS ==> IsByte(value[k].lo) && IsByte(value[k].hi)
      modifies pins, this`avr
      ensures Idle() && avr.enabled
      ensures avr.page == value && avr.flash == old(avr).flash && avr.signature == old(avr).signature
    {
      hide Slice, Linked, Shaped, Done;
      WordLoads(avr, 0, value[0]);
      for i := 0 to 32
        invariant Idle() && avr.enabled && |avr.page| == PAGE_WORDS
        invariant avr.flash == old(avr).flash && avr.signature == old(avr).signature
        invariant avr.page[..i] == value[..i]
      {
        WordLoads(avr, i, value[i]);
        Instruct(0x40, 0x00, i, value[i].lo);
        Instruct(0x48, 0x00, i, value[i].hi);
        assert avr.page[..i + 1] == value[..i + 1];
      }
      assert avr.page[..32] == avr.page && value[..32] == value;
    }

    /** n22xxp_isp_avr_prog_page_write: the page containing the word offset, and no other word, becomes
        the page buffer. */
    method PageWrite(offset: int)
      requires Idle() && avr.enabled && 0 <= offset < 0x10000
      modifies pins, this`avr
      ensures Idle() && avr.enabled && avr.page == old(avr).page && avr.signature == old(avr).signature
      ensures avr.flash == WithPage(old(avr).flash, offset % FLASH_WORDS / PAGE_WORDS * PAGE_WORDS, avr.page)
    {
      PageAddress(offset);
      Instruct(0x4C, offset / 256 % 16, offset % 256 / 32 * 32, 0x00);
    }

    /** n22xxp_isp_avr_prog_read: the word at the offset, which counts modulo the memory size. */
    method ProgRead(offset: int) returns (value: Word)
      requires Idle() && 0 <= offset < 0x10000
      modifies pins, this`avr
      ensures Idle() && SameMemory(old(avr), avr) && avr.enabled == old(avr).enabled
      ensures value == avr.flash[offset % FLASH_WORDS]
    {
      PageAddress(offset);
      var lo := Ask(0x20, offset / 256 % 16, offset % 256);
      var hi := Ask(0x28, offset / 256 % 16, offset % 256);
      value := Word(lo, hi);
    }

    /** The flash round trip through bytes, instructions and pulses: after a page is loaded and written,
        reading any offset back gives the loaded word inside the page and the old word outside it. */
    method ProgramAndReadBack(value: seq<Word>, offset: int, at: int) returns (word: Word)
      requires Idle() && avr.enabled && |value| == PAGE_WORDS
      requires forall k :: 0 <= k < PAGE_WORDS ==> IsByte(value[k].lo) && IsByte(value[k].hi)
      requires 0 <= offset < FLASH_WORDS && offset % PAGE_WORDS == 0 && 0 <= at < FLASH_WORDS
      modifies pins, this`avr
      ensures word == if offset <= at < offset + PAGE_WORDS then value[at - offset] else old(avr).flash[at]
    {
      hide Shaped, WithPage, Slice, Linked;
      ShapedOut(avr);
      AlignedOffset(offset);
      AlignedOffset(at);
      PageLoad(value);
      PageWrite(offset);
      WithPageAt(old(avr).flash, offset, value, at);
      word := ProgRead(at);
    }
  }

  lemma SelectKeepsSlices(c: CpldDevice.Cpld, bsl: bv8)
    ensures forall j :: Slice(CpldDevice.Select(c, CpldDevice.SPI_CTL, bsl), j) == Slice(c, j)
  {
    CpldDevice.SelectSynchronises(c, CpldDevice.SPI_CTL, bsl);
    hide CpldDevice.Select, CpldDevice.GetSlice, TwoOf;
  }

  /** The AVR setting slice 3 leaves the driver's slices alone. */
  lemma MisoStored(c: CpldDevice.Cpld, shown: bv8)
    ensures var r := c.(mem := c.mem[8 := CpldDevice.PutSlice(CpldDevice.Reg(c.mem, 8), 3, shown)]);
      Slice(r, 0) == Slice(c, 0) && Slice(r, 2) == Slice(c, 2) && Slice(r, 3) == TwoOf(shown)
  {
    SliceStored(CpldDevice.Reg(c.mem, 8), 3, shown, 0);
    SliceStored(CpldDevice.Reg(c.mem, 8), 3, shown, 2);
    SliceStored(CpldDevice.Reg(c.mem, 8), 3, shown, 3);
    TwoRoundTrip(Two(0, 0), shown);
    hide CpldDevice.PutSlice, CpldDevice.GetSlice, TwoOf;
  }

  lemma MisoIsHigh(bit: Bit)
    ensures TwoOf(if bit == 1 then 2 else 0).high == bit
  {
  }

  /** The two load instructions put one word in the page buffer. */
  lemma WordLoads(a: Avr, i: nat, w: Word)
    requires Shaped(a) && a.enabled && i < PAGE_WORDS && IsByte(w.lo) && IsByte(w.hi)
    ensures |a.page| == PAGE_WORDS
    ensures var b := Done(a, 0x40, 0x00, i, w.lo);
      Shaped(b) && b.enabled
      && var c := Done(b, 0x48, 0x00, i, w.hi);
         c.enabled && c.page == a.page[i := w] && c.flash == a.flash && c.signature == a.signature
  {
    hide BitsOf;
    DoneIsIdle(a, 0x40, 0x00, i, w.lo);
  }

  lemma SignatureAnswers(a: Avr, i: nat)
    requires Shaped(a) && i < 3
    ensures |a.signature| == 4 && Answer(a, 0x30, 0x00, i) == a.signature[i]
  {
  }

  predicate SameMemory(a: Avr, b: Avr) {
    a.page == b.page && a.flash == b.flash && a.signature == b.signature
  }

  lemma DoneIsIdle(a: Avr, b0: int, b1: int, b2: int, b3: int)
    requires Shaped(a) && IsByte(b1) && IsByte(b2) && IsByte(b3)
    ensures var r := Done(a, b0, b1, b2, b3);
      && r.bits == [] && r.ins == [] && Shaped(r)
      && (b0 == 0x20 || b0 == 0x28 || b0 == 0x30 ==> SameMemory(a, r) && r.enabled == a.enabled)
  {
    hide BitsOf;
  }

  lemma ThirdOut(a: Avr, b0: int, b1: int, b2: int)
    requires Shaped(a) && IsByte(b1) && IsByte(b2)
    ensures |Third(a, b0, b1, b2).out| == 8 && ValueOf(Third(a, b0, b1, b2).out) == Answer(a, b0, b1, b2)
  {
    AnswerIsByte(a, b0, b1, b2);
    BitsRoundTrip(Answer(a, b0, b1, b2));
  }

  lemma AlignedOffset(offset: int)
    requires 0 <= offset < FLASH_WORDS
    ensures offset % FLASH_WORDS == offset
    ensures offset % PAGE_WORDS == 0 ==>
      offset / PAGE_WORDS * PAGE_WORDS == offset && offset + PAGE_WORDS <= FLASH_WORDS
  {
  }

  lemma WithPageAt(flash: seq<Word>, base: int, page: seq<Word>, at: int)
    requires 0 <= base && base + |page| <= |flash| && 0 <= at < |flash|
    ensures WithPage(flash, base, page)[at] == if base <= at < base + |page| then page[at - base] else flash[at]
    ensures |WithPage(flash, base, page)| == |flash|
  {
  }

  lemma OffsetBytes(offset: int)
    requires 0 <= offset < 0x10000
    ensures IsByte(offset / 256) && IsByte(offset % 256) && offset == offset / 256 * 256 + offset % 256
  {
  }

  /** A byte modulo 16, with another byte below it. */
  lemma LowNibble(high: int, low: int)
    requires IsByte(high) && IsByte(low)
    ensures (high * 256 + low) % FLASH_WORDS == high % 16 * 256 + low
  {
    var q := high / 16;
    assert high * 256 + low == q * FLASH_WORDS + (high % 16 * 256 + low);
  }

  lemma PageOf(high: int, low: int)
    requires 0 <= high < 16 && IsByte(low)
    ensures IsByte(low / 32 * 32) && (high * 256 + low / 32 * 32) / PAGE_WORDS == (high * 256 + low) / PAGE_WORDS
  {
    var p := low / 32;
    assert (high * 256 + p * 32) / 32 == high * 8 + p;
    assert (high * 256 + low) / 32 == high * 8 + p;
  }

  /** The address bytes the driver cuts out of an offset meet again in the AVR. */
  lemma PageAddress(offset: int)
    requires 0 <= offset < 0x10000
    ensures IsByte(offset / 256 % 16) && IsByte(offset % 256) && IsByte(offset % 256 / 32 * 32)
    ensures WordAddress(offset / 256 % 16, offset % 256) == offset % FLASH_WORDS
    ensures PageBase(offset / 256 % 16, offset % 256 / 32 * 32) == offset % FLASH_WORDS / PAGE_WORDS * PAGE_WORDS
  {
    OffsetBytes(offset);
    var high, low := offset / 256, offset % 256;
    LowNibble(high, low);
    PageOf(high % 16, low);
    ModIsIdempotent(high);
  }

  lemma ModIsIdempotent(n: int)
    ensures n % 16 % 16 == n % 16 && 0 <= n % 16 < 16
  {
  }

  lemma ValueIsByte(b: seq<Bit>)
    requires |b| == 8
    ensures IsByte(ValueOf(b))
  {
  }

  lemma ShapedOut(a: Avr)
    requires Shaped(a)
    ensures |a.out| == 8 && |a.flash| == FLASH_WORDS
  {
  }

  lemma MidwayShowsBit(a: Avr, byte: seq<Bit>, n: nat)
    requires Shaped(a) && |byte| == 8 && n < 8
    ensures |Midway(a, byte, n).out| == 8 && Midway(a, byte, n).out[0] == a.out[n]
    ensures forall mosi: Bit :: Rise(Midway(a, byte, n), mosi).out == Midway(a, byte, n).out
  {
    ShiftsOn(a.out, n);
  }

  lemma MidwayEnds(a: Avr, byte: seq<Bit>)
    requires Shaped(a) && a.bits == [] && |byte| == 8
    ensures Midway(a, byte, 0) == a && Midway(a, byte, 8) == ByteIn(a, ValueOf(byte))
    ensures Shifted(byte, 0) == byte
    ensures forall n :: 0 <= n < 8 ==> |Midway(a, byte, n).bits| == n && |Midway(a, byte, n).out| == 8
    ensures ByteIn(a, ValueOf(byte)).bits == []
  {
    assert a.out[0..] + Zeros(0) == a.out;
    assert byte[0..] + Zeros(0) == byte;
  }
}
