/** The transition system of module Mailbox against the other modules: its bytes, slices, commands and kicks are
    those the links transport, its CPU is that of module Host, and what a byte-wide kick does to it. */
module MailboxLinks {
  import opened Mailbox
  import CpldDevice
  import PinTransport
  import Transports
  import Host

  // Bytes.

  function SliceOf(dat: bv8): Slice {
    Slice(dat & 2 != 0, dat & 1 != 0)
  }

  function ByteOf(b: bv8): Byte {
    Byte(SliceOf(b), SliceOf(b >> 2), SliceOf(b >> 4), SliceOf(b >> 6))
  }

  /** Reading and storing a slice of a register is reading and storing a slice of a mailbox byte. */
  lemma SlicesAgree(b: bv8, k: int, dat: bv8)
    requires 0 <= k < 4
    ensures SliceOf(CpldDevice.GetSlice(b, k)) == Get(ByteOf(b), k)
    ensures ByteOf(CpldDevice.PutSlice(b, k, dat)) == Put(ByteOf(b), k, SliceOf(dat))
  {
  }

  /** The k-th commit of a byte sent over the pins is the k-th slice of an access to the mailbox. */
  lemma CommitsAreSlices(addr: bv8, data: bv8, k: nat)
    requires k < 4
    ensures var c := CpldDevice.FourCommits(addr, data)[k];
      c.addr == CpldDevice.Wired(addr) && c.bsl == k && SliceOf(c.dat) == Get(ByteOf(data), k)
  {
  }

  lemma BytesAreDistinct(a: bv8, b: bv8)
    ensures ByteOf(a) == ByteOf(b) <==> a == b
  {
  }

  /** The commands are the constants of module/cpu.c:48 and :62, and the bit cpu_wait tests is that of
      module/cpu.c:32. */
  lemma ConstantsAgree(op: Op, d: Device, csr: bv8)
    requires d.csr == ByteOf(csr)
    ensures Command(op) == ByteOf(if op.ReadOp? then 0x08 else 0x0C)
    ensures Busy(d) <==> csr & 0x08 != 0
    ensures Mailbox.MAX_POLLS == Host.MAX_POLLS == 10000
  {
  }

  /** The kick of module Mailbox is the one the pins carry. */
  lemma KicksAgree(d: Device, csr: bv8, segment: int)
    requires d.csr == ByteOf(csr)
    ensures KickSlice(d, segment) == d.(csr := ByteOf(
      if PinTransport.KickCommits(segment) == [] then csr
      else var c := PinTransport.KickCommits(segment)[0]; CpldDevice.PutSlice(csr, c.bsl, c.dat)))
  {
    if 0 <= segment < 4 {
      var c := PinTransport.KickCommits(segment)[0];
      SlicesAgree(csr, c.bsl, c.dat);
      assert SliceOf(1) == Slice(false, true) && SliceOf(2) == Slice(true, false);
      hide ByteOf, CpldDevice.PutSlice, SliceOf;
    }
  }

  /** A kick action and the moves of its thread do to the registers what the kick of the pins does, to the memory and
      the CPU lock nothing, and free the CPLD lock again. */
  lemma KickRuns(s: State, i: int, segment: int, registers: CpldDevice.Memory)
    requires Locks(s) && s.cpld.None? && 0 <= i < |s.threads| && s.threads[i].Idle? && SameRegisters(s.dev, registers)
    ensures
      var taken := Next(s, Kick(i, segment));
      var sent := Exec(s, [Kick(i, segment), Step(i)]);
      var r := Exec(s, [Kick(i, segment), Step(i), Step(i)]);
      && taken.cpld == Some(i) && taken.dev == s.dev
      && SameRegisters(sent.dev, PinTransport.KickMemory(registers, segment))
      && sent.dev == s.dev.(csr := sent.dev.csr) && sent.cpld == Some(i)
      && r.dev == sent.dev && r.cpld.None? && r.cpu == s.cpu && r.threads == s.threads
      && r.issued == s.issued && r.book == s.book
  {
    KickedRegisters(s.dev, registers, segment);
    hide Exec, SameRegisters, PinTransport.KickMemory;
    KickMoves(s, i, segment);
  }

  lemma KickedRegisters(d: Device, registers: CpldDevice.Memory, segment: int)
    requires SameRegisters(d, registers)
    ensures SameRegisters(KickSlice(d, segment), PinTransport.KickMemory(registers, segment))
    ensures KickSlice(d, segment) == d.(csr := KickSlice(d, segment).csr)
  {
    var csr := CpldDevice.Reg(registers, 7);
    KicksAgree(d, csr, segment);
    if 0 <= segment < 4 {
      var c := PinTransport.KickCommits(segment)[0];
      CsrChanges(d, registers, CpldDevice.PutSlice(csr, c.bsl, c.dat));
      assert PinTransport.KickMemory(registers, segment) == registers[7 := CpldDevice.PutSlice(csr, c.bsl, c.dat)];
    }
    hide ByteOf, CpldDevice.PutSlice, SameRegisters;
  }

  lemma KickMoves(s: State, i: int, segment: int)
    requires Locks(s) && s.cpld.None? && 0 <= i < |s.threads| && s.threads[i].Idle?
    ensures
      var taken := s.(cpld := Some(i), threads := s.threads[i := Kicking(segment, false)]);
      var sent := s.(cpld := Some(i), threads := s.threads[i := Kicking(segment, true)],
                     dev := KickSlice(s.dev, segment));
      && Next(s, Kick(i, segment)) == taken
      && Exec(s, [Kick(i, segment), Step(i)]) == sent
      && Exec(s, [Kick(i, segment), Step(i), Step(i)]) == s.(dev := KickSlice(s.dev, segment))
  {
    hide KickSlice, Exec;
    ThreeSteps(s, Kick(i, segment), Step(i), Step(i));
    var taken := s.(cpld := Some(i), threads := s.threads[i := Kicking(segment, false)]);
    var sent := s.(cpld := Some(i), threads := s.threads[i := Kicking(segment, true)],
                   dev := KickSlice(s.dev, segment));
    assert taken.threads[i := Kicking(segment, true)] == sent.threads;
    assert Next(taken, Step(i)) == sent;
    assert sent.threads[i := Idle] == s.threads;
    assert Next(sent, Step(i)) == s.(dev := KickSlice(s.dev, segment));
  }

  lemma ThreeSteps(s: State, a: Action, b: Action, c: Action)
    ensures Exec(s, [a, b]) == Next(Next(s, a), b)
    ensures Exec(s, [a, b, c]) == Next(Next(Next(s, a), b), c)
  {
    hide Next;
    assert [a, b, c][..2] == [a, b] && [a, b][..1] == [a] && [a][..0] == [];
    assert Exec(s, []) == s;
    assert Exec(s, [a]) == Next(s, a);
    assert Exec(s, [a, b]) == Next(Next(s, a), b);
  }

  /** The byte-wide kick of module Mailbox is the byte the flash and MDIO backends write. */
  lemma WideKicksAgree(segment: int)
    ensures ByteOf(Transports.KickByte(segment)) == WideKickByte(segment)
  {
  }

  /** The byte-wide kick of the flash and MDIO backends takes an outstanding command back: the call that
      waits for it ends without a timeout, a read with what HOST_DAT held before, a write with
      nothing stored. */
  lemma WideKickLosesCall(s: State, i: int, segment: int)
    requires 0 <= i < |s.threads| && s.threads[i].Working? && s.threads[i].stage == Poll && s.threads[i].sub == 0
    requires s.cpld.None? && Busy(s.dev) && !s.threads[i].late
    ensures
      var t := s.threads[i];
      var kicked := Next(s, WideKick(segment));
      var r := Run(kicked, i, if t.op.ReadOp? then 12 else 6);
      && r.dev == kicked.dev && !Busy(r.dev)
      && FinishedBy(r, Step(i)) == [Finished(t.op, if t.op.ReadOp? then s.dev.host else r.dev.csr, false)]
  {
    var t := s.threads[i];
    var kicked := Next(s, WideKick(segment));
    assert kicked == s.(dev := s.dev.(csr := WideKickByte(segment))) && !Busy(kicked.dev);
    hide Run, Accessed, Next, FinishedBy, WideKickByte;
    AccessTakesSix(kicked, i);
    PollEnds(kicked, i);
    var polled := Accessed(kicked, i);
    if t.op.ReadOp? {
      AccessTakesSix(polled, i);
      FetchEnds(polled, i);
      RunAdds(kicked, i, 6, 6);
      ReleaseEnds(Accessed(polled, i), i);
    } else {
      ReleaseEnds(polled, i);
    }
  }

  // The device of module Mailbox and the registers and memory of module Host.

  predicate SameRegisters(d: Device, registers: CpldDevice.Memory) {
    && d.addr == ByteOf(CpldDevice.Reg(registers, 0)) && d.dat == ByteOf(CpldDevice.Reg(registers, 1))
    && d.host == ByteOf(CpldDevice.Reg(registers, 2)) && d.csr == ByteOf(CpldDevice.Reg(registers, 7))
  }

  ghost predicate SameCells(m: Memory, mem: CpldDevice.Memory) {
    forall offset: bv8 :: Lookup(m, ByteOf(offset)) == ByteOf(CpldDevice.Reg(mem, Host.Cell(offset)))
  }

  /** The k-th pair of bits of a byte, as a number. */
  function PairAt(b: bv8, k: int): int {
    if k == 3 then CpldDevice.Pair(b & 128 != 0, b & 64 != 0)
    else if k == 2 then CpldDevice.Pair(b & 32 != 0, b & 16 != 0)
    else if k == 1 then CpldDevice.Pair(b & 8 != 0, b & 4 != 0)
    else CpldDevice.Pair(b & 2 != 0, b & 1 != 0)
  }

  lemma PairsDecide(a: bv8, b: bv8)
    requires PairAt(a, 3) == PairAt(b, 3) && PairAt(a, 2) == PairAt(b, 2)
    requires PairAt(a, 1) == PairAt(b, 1) && PairAt(a, 0) == PairAt(b, 0)
    ensures a == b
  {
  }

  lemma CellIsPairs(b: bv8)
    ensures Host.Cell(b) == 64 * PairAt(b, 3) + 16 * PairAt(b, 2) + 4 * PairAt(b, 1) + PairAt(b, 0)
    ensures 0 <= PairAt(b, 3) < 4 && 0 <= PairAt(b, 2) < 4 && 0 <= PairAt(b, 1) < 4 && 0 <= PairAt(b, 0) < 4
  {
  }

  lemma CellsAreDistinct(a: bv8, b: bv8)
    ensures Host.Cell(a) == Host.Cell(b) <==> a == b
  {
    hide PairAt, Host.Cell;
    CellIsPairs(a);
    CellIsPairs(b);
    if Host.Cell(a) == Host.Cell(b) {
      PairsDecide(a, b);
    }
  }

  lemma StoredCell(m: Memory, mem: CpldDevice.Memory, at: bv8, dat: bv8)
    requires SameCells(m, mem)
    ensures SameCells(m[ByteOf(at) := ByteOf(dat)], mem[Host.Cell(at) := dat])
  {
    hide ByteOf, Host.Cell;
    forall offset: bv8
      ensures Lookup(m[ByteOf(at) := ByteOf(dat)], ByteOf(offset))
           == ByteOf(CpldDevice.Reg(mem[Host.Cell(at) := dat], Host.Cell(offset)))
    {
      CellsAreDistinct(offset, at);
      BytesAreDistinct(offset, at);
      assert Lookup(m, ByteOf(offset)) == ByteOf(CpldDevice.Reg(mem, Host.Cell(offset)));
    }
  }

  lemma ServedCsr(csr: bv8)
    ensures ByteOf(csr & 0xF7) == ByteOf(csr).(s1 := ByteOf(csr).s1.(high := false))
    ensures ByteOf(csr).s1.high <==> csr & 0x08 != 0
    ensures ByteOf(csr).s1.low <==> csr & 0x04 != 0
  {
  }

  lemma CsrChanges(d: Device, registers: CpldDevice.Memory, csr: bv8)
    requires SameRegisters(d, registers)
    ensures SameRegisters(d.(csr := ByteOf(csr)), registers[7 := csr])
  {
    hide ByteOf;
  }

  lemma HostDatChanges(d: Device, registers: CpldDevice.Memory, dat: bv8)
    requires SameRegisters(d, registers)
    ensures SameRegisters(d.(host := ByteOf(dat)), registers[2 := dat])
  {
    hide ByteOf;
  }

  lemma MemoryIsApart(d: Device, registers: CpldDevice.Memory, m: Memory)
    requires SameRegisters(d, registers)
    ensures SameRegisters(d.(mem := m), registers)
  {
    hide ByteOf;
  }

  /** The CPU of module Host does to its registers and memory just what the Answer of module Mailbox does. */
  lemma ServedIsAnswer(d: Device, registers: CpldDevice.Memory, mem: CpldDevice.Memory)
    requires SameRegisters(d, registers) && SameCells(d.mem, mem)
    ensures var r, s := if Busy(d) then Execute(d) else d, Host.Served(registers, mem);
      SameRegisters(r, s.0) && SameCells(r.mem, s.1)
  {
    var csr, at, dat := CpldDevice.Reg(registers, 7), CpldDevice.Reg(registers, 0), CpldDevice.Reg(registers, 1);
    ServedCsr(csr);
    if csr & 0x08 != 0 {
      if csr & 0x04 != 0 {
        StoredCell(d.mem, mem, at, dat);
        CsrChanges(d, registers, csr & 0xF7);
        MemoryIsApart(d.(csr := ByteOf(csr & 0xF7)), registers[7 := csr & 0xF7], d.mem[d.addr := d.dat]);
      } else {
        var found := CpldDevice.Reg(mem, Host.Cell(at));
        assert Lookup(d.mem, ByteOf(at)) == ByteOf(found);
        HostDatChanges(d, registers, found);
        CsrChanges(d.(host := ByteOf(found)), registers[2 := found], csr & 0xF7);
      }
    }
    hide ByteOf, Host.Cell, SameCells, CpldDevice.Reg;
  }
}
