/** The two transports that reach the CPLD without bit-banging, module/cpld_flash.c and
    module/cpld_mdio.c, against the same register map as the pin transports. */
module Transports {
  import opened CpldDevice

  /** A byte of address as a number. */
  function Number(addr: bv8): int {
    64 * Pair(addr & 128 != 0, addr & 64 != 0) + 16 * Pair(addr & 32 != 0, addr & 16 != 0) + Wired(addr)
  }

  /** For the sixteen CPLD registers the four transports name the same cells. */
  lemma WiredIsNumber(addr: bv8)
    requires addr < 16
    ensures Number(addr) == Wired(addr)
  {
  }

  /** 0x10 << segment in a byte. */
  function KickByte(segment: int): bv8 {
    if segment == 0 then 0x10 else if segment == 1 then 0x20
    else if segment == 2 then 0x40 else if segment == 3 then 0x80 else 0
  }

  /** module/cpld_flash.c: the CPLD sits in the flash window of the NIC; the window takes writes only
      while the FWE field of EECD (bits 5..4) says enabled. */
  class FlashBus {
    var eecd: set<int>
    var mem: Memory

    predicate Enabled()
      reads this`eecd
    {
      5 in eecd && 4 !in eecd
    }

    method Init()
      modifies this`eecd
      ensures Enabled()
      ensures forall n :: n != 4 && n != 5 ==> (n in eecd <==> n in old(eecd))
    {
      var val := eecd;
      val := val - {4, 5};
      val := val + {5};
      eecd := val;
    }

    method Read(addr: bv8) returns (value: bv8)
      ensures value == Reg(mem, Number(addr))
    {
      value := Reg(mem, Number(addr));
    }

    method Write(addr: bv8, data: bv8) returns (rc: int)
      modifies this`mem
      ensures rc == 0
      ensures mem == if Enabled() then old(mem)[Number(addr) := data] else old(mem)
    {
      if Enabled() {
        mem := mem[Number(addr) := data];
      }
      return 0;
    }

    method Kick(segment: int) returns (rc: int)
      modifies this`mem
      ensures rc == 0
      ensures mem == if Enabled() then old(mem)[7 := KickByte(segment)] else old(mem)
    {
      assert Number(CSR) == 7;
      var _ := Write(CSR, KickByte(segment));
      return 0;
    }
  }

  // MDIO.

  /** What an operation code asks for (IEEE 802.3 section 45.3.4). */
  datatype Operation = Addressing | Writing | ReadingOn | Reading

  function OperationOf(op: int): Operation {
    if op == 0 then Addressing else if op == 1 then Writing else if op == 2 then ReadingOn else Reading
  }

  const PRTAD := 0x10
  const MDI_ADDR := 0
  const MDI_WR := 1
  const MDI_RD := 3

  const MAX_POLLS := 10

  /** MSCA for a clause 45 frame: MDICMD | ST << 28 | op << 26 | port << 21 | device << 16 | addr. */
  function CommandWord(op: int, port: int, device: int, addr: int): int {
    0x40000000 + op * 0x4000000 + port * 0x200000 + device * 0x10000 + addr
  }

  predicate InProgress(word: int) {
    word / 0x40000000 % 2 == 1
  }

  datatype Frame = Frame(start: int, op: int, port: int, device: int, addr: int)

  /** The fields the MDIO controller puts on the line. */
  function FrameOf(word: int): Frame {
    Frame(word / 0x10000000 % 4, word / 0x4000000 % 4, word / 0x200000 % 32, word / 0x10000 % 32, word % 0x10000)
  }

  /** Every command word carries its operation, port, device and address without overlap. */
  lemma CommandWordDecodes(op: int, port: int, device: int, addr: int)
    requires 0 <= op < 4 && 0 <= port < 32 && 0 <= device < 32 && 0 <= addr < 0x10000
    ensures var w := CommandWord(op, port, device, addr);
      0 <= w < 0x100000000 && InProgress(w) && FrameOf(w) == Frame(0, op, port, device, addr)
  {
    var w := CommandWord(op, port, device, addr);
    var d := 0x4000 + op * 0x400 + port * 0x20 + device;
    assert w == d * 0x10000 + addr;
    assert w / 0x10000 == d && w % 0x10000 == addr;
    var p := 0x200 + op * 0x20 + port;
    assert d == p * 32 + device;
    assert w / 0x200000 == p;
    var o := 16 + op;
    assert p == o * 32 + port;
    assert w / 0x4000000 == o;
    assert w / 0x10000000 == 4;
  }

  /** The MDIO-manageable device behind the controller (IEEE 802.3 section 45.3): an address register,
      the registers, and the data of the last read frame. */
  datatype Slave = Slave(target: int, mem: Memory, fetched: bv8)

  /** What one frame does. The CPLD is at port 0x10; another port or device does not answer, and a read then finds
      all ones. Frames of another clause mean nothing here. */
  function Perform(s: Slave, answers: int, f: Frame, written: bv8): Slave {
    var there := f.port == 0x10 && f.device == answers;
    if f.start != 0 then s
    else match OperationOf(f.op)
      case Addressing => if there then s.(target := f.addr) else s
      case Writing => if there then s.(mem := s.mem[s.target := written]) else s
      case Reading => s.(fetched := if there then Reg(s.mem, s.target) else 0xFF)
      case ReadingOn =>
        if there then s.(fetched := Reg(s.mem, s.target), target := s.target + 1) else s.(fetched := 0xFF)
  }

  /** What becomes of the slave when a command left in progress is carried out after all, with what MSRWD
      holds by then. */
  function Overtaken(s: Slave, answers: int, msca: int, written: bv8, happens: bool): Slave {
    if happens && InProgress(msca) then Perform(s, answers, FrameOf(msca), written) else s
  }

  /** A write that was given up may still be carried out when the next write has put its own data in MSRWD:
      that data then lands at the old address as well. The registers are nevertheless as they should be
      exactly if the two addresses are the same or the old one held that byte already. */
  lemma LateFrameExactly(s: Slave, answers: int, msca: int, data: bv8, addr: int)
    requires InProgress(msca) && OperationOf(FrameOf(msca).op) == Writing && FrameOf(msca).start == 0
    requires FrameOf(msca).port == 0x10 && FrameOf(msca).device == answers
    ensures Overtaken(s, answers, msca, data, true).mem == s.mem[s.target := data]
    ensures Overtaken(s, answers, msca, data, true).mem[addr := data] == s.mem[addr := data]
      <==> s.target == addr || (s.target in s.mem && s.mem[s.target] == data)
  {
    var late := Overtaken(s, answers, msca, data, true).mem;
    if s.target != addr {
      assert s.target in late[addr := data] && late[addr := data][s.target] == data;
    } else {
      assert s.mem[addr := data][addr := data] == s.mem[addr := data];
    }
  }

  /** module/cpld_mdio.c. devad is what hw_ctrl[hw][1] stands for, answers is where the CPLD is. delays
      gives for each command to come the number of polls that still find it in progress; lags tells, for
      each write of a register to come, whether a command that was given up is carried out just then. */
  class MdioBus {
    const devad: int
    const answers: int
    var msca: int
    var written: bv8
    var slave: Slave
    var remaining: nat
    var delays: seq<nat>
    var lags: seq<bool>
    var locked: bool

    predicate Valid() {
      0 <= devad < 32
    }

    function Delay(k: nat): (d: nat)
      reads this`delays
      ensures d == 0 || d in delays
    {
      if k < |delays| then delays[k] else 0
    }

    function Lag(k: nat): bool
      reads this`lags
    {
      k < |lags| && lags[k]
    }

    /** The moment of a register write: a command given up earlier may be carried out. */
    method Overtake()
      modifies this`msca, this`slave, this`lags
      ensures slave == Overtaken(old(slave), answers, old(msca), written, old(Lag(0)))
      ensures msca == if old(Lag(0)) && InProgress(old(msca)) then old(msca) - 0x40000000 else old(msca)
      ensures lags == if old(lags) == [] then [] else old(lags)[1..]
    {
      if Lag(0) && InProgress(msca) {
        slave := Perform(slave, answers, FrameOf(msca), written);
        msca := msca - 0x40000000;
      }
      if lags != [] {
        lags := lags[1..];
      }
    }

    /** N22XX_WRITE_REG(hw_a, MSCA, word) */
    method StartCommand(word: int)
      requires locked
      modifies this`msca, this`remaining, this`delays, this`slave, this`lags
      ensures msca == word && remaining == old(Delay(0))
      ensures delays == if old(delays) == [] then [] else old(delays)[1..]
      ensures slave == Overtaken(old(slave), answers, old(msca), written, old(Lag(0)))
    {
      Overtake();
      msca := word;
      remaining := Delay(0);
      if delays != [] {
        delays := delays[1..];
      }
    }

    /** N22XX_READ_REG(hw_a, MSCA): the controller may finish the command first. */
    method ReadMsca() returns (word: int)
      modifies this`msca, this`slave, this`remaining
      ensures word == msca
      ensures InProgress(old(msca)) && old(remaining) > 0 ==>
                msca == old(msca) && slave == old(slave) && remaining == old(remaining) - 1
      ensures InProgress(old(msca)) && old(remaining) == 0 ==>
                msca == old(msca) - 0x40000000 && slave == Perform(old(slave), answers, FrameOf(old(msca)), written)
      ensures !InProgress(old(msca)) ==> msca == old(msca) && slave == old(slave) && remaining == old(remaining)
    {
      if InProgress(msca) {
        if remaining == 0 {
          slave := Perform(slave, answers, FrameOf(msca), written);
          msca := msca - 0x40000000;
        } else {
          remaining := remaining - 1;
        }
      }
      word := msca;
    }

    /** The polling loop after each command: at most MAX_POLLS reads, and it succeeds exactly if the
        command is finished by then; else the command is left in progress. */
    method PollDone() returns (done: bool)
      requires 0x40000000 <= msca < 0x80000000
      requires locked
      modifies this`msca, this`slave, this`remaining
      ensures done <==> old(remaining) < 10
      ensures done <==> !InProgress(msca)
      ensures slave == if done then Perform(old(slave), answers, FrameOf(old(msca)), written) else old(slave)
    {
      done := false;
      for i := 0 to MAX_POLLS
        invariant !done && msca == old(msca) && slave == old(slave) && remaining == old(remaining) - i
      {
        var temp := ReadMsca();
        if !InProgress(temp) {
          done := true;
          break;
        }
      }
    }

    /** One command of the access: the frame reaches the slave exactly if the poll succeeds. */
    method Issue(op: int, addr: bv8) returns (done: bool)
      requires Valid() && 0 <= op < 4
      requires locked
      modifies this`msca, this`slave, this`remaining, this`delays, this`lags
      ensures done <==> old(Delay(0)) < 10
      ensures done <==> !InProgress(msca)
      ensures delays == if old(delays) == [] then [] else old(delays)[1..]
      ensures
        var before := Overtaken(old(slave), answers, old(msca), written, old(Lag(0)));
        slave == if done then Perform(before, answers, Frame(0, op, PRTAD, devad, Number(addr)), written) else before
    {
      hide Perform, FrameOf, InProgress, CommandWord;
      CommandWordDecodes(op, PRTAD, devad, Number(addr));
      CommandWordFits(op, devad, Number(addr));
      StartCommand(CommandWord(op, PRTAD, devad, Number(addr)));
      done := PollDone();
    }

    /** cpld_mdio_read: both phases in time exactly if it does not time out, and then the byte is that of the
        addressed register, which a command given up earlier may have reached only now. The read itself
        changes no register, leaves a command in progress exactly if it times out, and frees the lock. */
    method Read(addr: bv8) returns (value: bv8, ghost timedOut: bool)
      requires Valid() && !locked
      modifies this
      ensures !locked && written == old(written)
      ensures slave.mem == Overtaken(old(slave), answers, old(msca), old(written), old(Lag(0))).mem
      ensures forall d :: d in delays ==> d in old(delays)
      ensures timedOut <==> old(Delay(0)) >= 10 || old(Delay(1)) >= 10
      ensures timedOut <==> InProgress(msca)
      ensures value == if timedOut || devad != answers then 0xFF else Reg(slave.mem, Number(addr))
    {
      hide InProgress, FrameOf;
      locked := true;
      var done := Issue(MDI_ADDR, addr);
      if !done {
        locked := false;
        return 0xFF, true;
      }
      done := Issue(MDI_RD, addr);
      if !done {
        locked := false;
        return 0xFF, true;
      }
      var temp := slave.fetched;
      locked := false;
      return temp, false;
    }

    /** cpld_mdio_write: 0 means that both phases finished in time, and then the addressed register of an
        answering CPLD holds the byte; otherwise a command is left in progress. No other register
        changes, unless a command given up earlier is carried out now, with its own data or with this call's. */
    method Write(addr: bv8, data: bv8) returns (rc: int)
      requires Valid() && !locked
      modifies this
      ensures !locked && (rc == 0 || rc == -1)
      ensures forall d :: d in delays ==> d in old(delays)
      ensures rc == 0 <==> old(Delay(0)) < 10 && old(Delay(1)) < 10
      ensures rc == 0 <==> !InProgress(msca)
      ensures
        var lag := old(Lag(0)) || old(Lag(1)) || old(Lag(2));
        var before := Overtaken(old(slave), answers, old(msca), if old(Lag(0)) then old(written) else data, lag).mem;
        slave.mem == if rc == 0 && devad == answers then before[Number(addr) := data] else before
    {
      hide FrameOf;
      locked := true;
      OvertakenOnce(msca);
      Overtake();
      written := data;
      Overtake();
      var done := Issue(MDI_ADDR, addr);
      if !done {
        locked := false;
        return -1;
      }
      done := Issue(MDI_WR, addr);
      locked := false;
      if !done {
        return -1;
      }
      return 0;
    }

    method Kick(segment: int) returns (rc: int)
      requires Valid() && !locked
      modifies this
      ensures !locked && rc == 0
      ensures forall d :: d in delays ==> d in old(delays)
      ensures old(Delay(0)) < 10 && old(Delay(1)) < 10 ==> !InProgress(msca)
      ensures old(Delay(0)) < 10 && old(Delay(1)) < 10 && devad == answers && !InProgress(old(msca)) ==>
                slave.mem == old(slave.mem)[7 := KickByte(segment)]
    {
      assert Number(CSR) == 7;
      var _ := Write(CSR, KickByte(segment));
      return 0;
    }
  }

  lemma CommandWordFits(op: int, device: int, addr: int)
    requires 0 <= op < 4 && 0 <= device < 32 && 0 <= addr < 0x10000
    ensures 0x40000000 <= CommandWord(op, PRTAD, device, addr) < 0x80000000
  {
  }

  lemma OvertakenOnce(msca: int)
    ensures InProgress(msca) ==> !InProgress(msca - 0x40000000)
  {
    var q := msca / 0x40000000;
    assert (msca - 0x40000000) / 0x40000000 == q - 1;
    ParityFlips(q);
  }

  lemma ParityFlips(q: int)
    ensures q % 2 == 1 ==> (q - 1) % 2 == 0
  {
  }
}
