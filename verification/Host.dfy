/** module/cpu.c as the code runs it, one call at a time, through whichever transport the card has: the loop
    of cpu_wait, the two calls and the lock bit. */
module Host {
  import opened CpldDevice
  import opened FunctionTable
  import Transports

  const MAX_POLLS := 10000

  /** A number of the CPU's register for each offset byte. */
  function Cell(offset: bv8): int {
    Transports.Number(offset)
  }

  /** The CPLD registers and the CPU's own memory after the CPU has looked at the mailbox: with bit 3 of CSR set it
      carries out the write or read that bit 2 asks for, and clears bit 3. */
  function Served(registers: Memory, mem: Memory): (Memory, Memory) {
    var csr := Reg(registers, 7);
    if csr & 0x08 == 0 then (registers, mem)
    else if csr & 0x04 != 0 then (registers[7 := csr & 0xF7], mem[Cell(Reg(registers, 0)) := Reg(registers, 1)])
    else (registers[2 := Reg(mem, Cell(Reg(registers, 0)))][7 := csr & 0xF7], mem)
  }

  /** The store into its memory that the CPU makes when it looks: cell and value, or none. */
  function StoreDue(registers: Memory): seq<(int, bv8)> {
    if Reg(registers, 7) & 0x0C == 0x0C then [(Cell(Reg(registers, 0)), Reg(registers, 1))] else []
  }

  /** A moment in which the CPU may look at the mailbox. */
  function Glanced(registers: Memory, mem: Memory, look: bool): (Memory, Memory) {
    if look then Served(registers, mem) else (registers, mem)
  }

  /** Registers and memory just before the command of a read is written, if the CPU looks before the write of
      AVR_ADDR (look0) or before that of CSR (look1). */
  function ReadSetUp(registers: Memory, mem: Memory, offset: bv8, look0: bool, look1: bool): (Memory, Memory) {
    var s := Glanced(registers, mem, look0);
    Glanced(s.0[0 := offset], s.1, look1)
  }

  /** The same for a write: the value goes to AVR_DAT in between. */
  function WriteSetUp(registers: Memory, mem: Memory, offset: bv8, value: bv8, look0: bool, look1: bool, look2: bool)
    : (Memory, Memory)
  {
    var s := ReadSetUp(registers, mem, offset, look0, look1);
    Glanced(s.0[1 := value], s.1, look2)
  }

  /** A read that begins while a write of v at o is still outstanding: the CPU never looks before the read's own
      command, or it stores v at o as that write meant it, or it stores v at the offset of the read. */
  lemma LateWriteMeetsRead(registers: Memory, mem: Memory, offset: bv8, look0: bool, look1: bool)
    requires Reg(registers, 7) & 0x0C == 0x0C
    ensures var v := Reg(registers, 1);
      ReadSetUp(registers, mem, offset, look0, look1).1 ==
        if look0 then mem[Cell(Reg(registers, 0)) := v] else if look1 then mem[Cell(offset) := v] else mem
  {
    hide Cell;
  }

  /** So the read, if answered in time, returns what the memory held, whenever the CPU looks, exactly if the value
      still to be written is that value. */
  lemma LateWriteMisleads(registers: Memory, mem: Memory, offset: bv8)
    requires Reg(registers, 7) & 0x0C == 0x0C
    ensures
      (forall look0, look1 ::
        Reg(ReadSetUp(registers, mem, offset, look0, look1).1, Cell(offset)) == Reg(mem, Cell(offset)))
      <==> Reg(registers, 1) == Reg(mem, Cell(offset))
  {
    hide Cell;
    forall look0, look1
      ensures ReadSetUp(registers, mem, offset, look0, look1).1 ==
        if look0 then mem[Cell(Reg(registers, 0)) := Reg(registers, 1)]
        else if look1 then mem[Cell(offset) := Reg(registers, 1)] else mem
    {
      LateWriteMeetsRead(registers, mem, offset, look0, look1);
    }
    hide ReadSetUp;
    assert Reg(ReadSetUp(registers, mem, offset, false, true).1, Cell(offset)) == Reg(registers, 1);
  }

  /** A write that begins then loses at most the earlier write: its own value ends up at its own offset, and at the
      other offsets nothing appears but what the earlier write meant. */
  lemma LateWriteMeetsWrite(registers: Memory, mem: Memory, offset: bv8, value: bv8,
                            look0: bool, look1: bool, look2: bool)
    requires Reg(registers, 7) & 0x0C == 0x0C
    ensures WriteSetUp(registers, mem, offset, value, look0, look1, look2).1[Cell(offset) := value] ==
      (if look0 then mem[Cell(Reg(registers, 0)) := Reg(registers, 1)] else mem)[Cell(offset) := value]
  {
    hide Cell;
  }

  /** An outstanding read changes no memory, and nothing outstanding changes nothing. */
  lemma LateReadIsHarmless(registers: Memory, mem: Memory, offset: bv8, value: bv8,
                           look0: bool, look1: bool, look2: bool)
    requires Reg(registers, 7) & 0x0C != 0x0C
    ensures ReadSetUp(registers, mem, offset, look0, look1).1 == mem
    ensures WriteSetUp(registers, mem, offset, value, look0, look1, look2).1 == mem
    ensures Reg(registers, 7) & 0x08 == 0 ==>
      ReadSetUp(registers, mem, offset, look0, look1) == (registers[0 := offset], mem)
    ensures Reg(registers, 7) & 0x08 == 0 ==>
      WriteSetUp(registers, mem, offset, value, look0, look1, look2) == (registers[0 := offset][1 := value], mem)
  {
    hide Cell;
  }

  /** Nothing is due when nothing is outstanding, in whichever other registers a call may have written since. */
  lemma NothingDue(registers: Memory, mem: Memory, look: bool, offset: bv8, value: bv8)
    requires Reg(registers, 7) & 0x08 == 0
    ensures StoreDue(registers) == [] && Glanced(registers, mem, look) == (registers, mem)
    ensures Reg(registers[0 := offset], 7) & 0x08 == 0 && Reg(registers[0 := offset][1 := value], 7) & 0x08 == 0
  {
    hide Cell;
  }

  lemma CommandsDue(registers: Memory)
    ensures StoreDue(registers[7 := 0x08]) == []
    ensures StoreDue(registers[7 := 0x0C]) == [(Cell(Reg(registers, 0)), Reg(registers, 1))]
  {
    hide Cell;
  }

  lemma ReadIsServed(registers: Memory, mem: Memory)
    ensures var r := Served(registers[7 := 0x08], mem);
      Reg(r.0, 7) & 0x08 == 0 && Reg(r.0, 2) == Reg(mem, Cell(Reg(registers, 0))) && r.1 == mem
    ensures Reg(registers[7 := 0x08], 7) & 0x08 != 0
  {
    hide Cell;
  }

  /** Once a command is served a second look finds nothing. */
  lemma ServedOnce(registers: Memory, mem: Memory)
    ensures var r := Served(registers, mem); Served(r.0, r.1) == r
  {
    hide Cell;
  }

  lemma WriteIsServed(registers: Memory, mem: Memory)
    ensures var r := Served(registers[7 := 0x0C], mem);
      Reg(r.0, 7) & 0x08 == 0 && r.1 == mem[Cell(Reg(registers, 0)) := Reg(registers, 1)]
    ensures Reg(registers[7 := 0x0C], 7) & 0x08 != 0
  {
    hide Cell;
  }

  /** What the CPU does meanwhile leaves the arguments of the call in place. */
  lemma SetUpKeepsArguments(registers: Memory, mem: Memory, offset: bv8, value: bv8,
                            look0: bool, look1: bool, look2: bool)
    ensures Reg(ReadSetUp(registers, mem, offset, look0, look1).0, 0) == offset
    ensures var r := WriteSetUp(registers, mem, offset, value, look0, look1, look2).0;
      Reg(r, 0) == offset && Reg(r, 1) == value
  {
    hide Cell;
  }

  /** What becomes of a read that is answered in time, or just before HOST_DAT is read (look2), or not. */
  lemma ReadOutcome(registers: Memory, mem: Memory, offset: bv8, look0: bool, look1: bool, inTime: bool, look2: bool)
    ensures
      var s := ReadSetUp(registers, mem, offset, look0, look1);
      var r := Glanced(s.0[7 := 0x08], s.1, inTime);
      var f := Glanced(r.0, r.1, look2);
      && f.1 == s.1 && Reg(f.0, 2) == (if inTime || look2 then Reg(s.1, Cell(offset)) else Reg(s.0, 2))
      && (inTime ==> Reg(f.0, 7) & 0x08 == 0)
      && (Reg(registers, 7) & 0x08 == 0 ==> s.1 == mem)
  {
    var s := ReadSetUp(registers, mem, offset, look0, look1);
    ReadIsServed(s.0, s.1);
    ServedOnce(s.0[7 := 0x08], s.1);
    SetUpKeepsArguments(registers, mem, offset, 0, look0, look1, false);
    if Reg(registers, 7) & 0x08 == 0 {
      LateReadIsHarmless(registers, mem, offset, 0, look0, look1, false);
    }
    hide ReadSetUp, Served, Cell;
  }

  lemma ReadOutcomeStores(registers: Memory, mem: Memory, offset: bv8, look0: bool, look1: bool, inTime: bool)
    ensures var s := ReadSetUp(registers, mem, offset, look0, look1);
      StoreDue(Glanced(s.0[7 := 0x08], s.1, inTime).0) == []
  {
    var s := ReadSetUp(registers, mem, offset, look0, look1);
    hide ReadSetUp, Cell;
    CommandsDue(s.0);
  }

  lemma WriteOutcome(registers: Memory, mem: Memory, offset: bv8, value: bv8, look0: bool, look1: bool, look2: bool)
    ensures
      var s := WriteSetUp(registers, mem, offset, value, look0, look1, look2);
      var r := Served(s.0[7 := 0x0C], s.1);
      && r.1 == s.1[Cell(offset) := value] && Reg(r.0, 7) & 0x08 == 0
      && (Reg(registers, 7) & 0x08 == 0 ==> s.1 == mem)
  {
    var s := WriteSetUp(registers, mem, offset, value, look0, look1, look2);
    WriteIsServed(s.0, s.1);
    SetUpKeepsArguments(registers, mem, offset, value, look0, look1, look2);
    if Reg(registers, 7) & 0x08 == 0 {
      LateReadIsHarmless(registers, mem, offset, value, look0, look1, look2);
    }
    hide WriteSetUp, Served, Cell;
  }

  lemma RegisterNumbers()
    ensures Wired(AVR_ADDR) == 0 && Wired(AVR_DAT) == 1 && Wired(HOST_DAT) == 2 && Wired(CSR) == 7
  {
  }

  predicate AllPrompt(delays: seq<nat>) {
    forall d :: d in delays ==> d < MAX_POLLS
  }

  lemma PromptOn(delays: seq<nat>)
    ensures AllPrompt(delays) && delays != [] ==> delays[0] < MAX_POLLS && AllPrompt(delays[1..])
    ensures AllPrompt([])
  {
    if delays != [] {
      assert delays[0] in delays;
      assert forall d :: d in delays[1..] ==> d in delays;
    }
  }

  /** Something behind the CPLD changes one of its registers. */
  method Outside(b: Backend, addr: int, value: bv8)
    requires Healthy(b)
    modifies Repr(b)
    ensures Healthy(b) && Registers(b) == old(Registers(b))[addr := value]
  {
    match b {
      case Pins(pins) => pins.Outside(addr, value);
      case Flash(flash) => flash.mem := flash.mem[addr := value];
      case Mdio(mdio) => mdio.slave := mdio.slave.(mem := mdio.slave.mem[addr := value]);
    }
  }

  /** One card with its CPU behind any transport. The CPU serves the command of the k-th call from now at the read
      of CSR that comes after delays[k] others; looks says whether it also looks just before each register write, and
      each read of HOST_DAT, to come, where it finds only a command given up earlier. stores is the history of the
      CPU's memory. */
  class Card {
    const backend: Backend
    var mem: Memory
    var locked: bool
    var wait: nat
    var delays: seq<nat>
    var looks: seq<bool>
    ghost var stores: seq<(int, bv8)>

    constructor (backend: Backend, mem: Memory, delays: seq<nat>, looks: seq<bool>)
      requires Healthy(backend)
      ensures Valid() && this.backend == backend && this.mem == mem && this.delays == delays && this.looks == looks
      ensures stores == []
    {
      this.backend := backend;
      this.mem, locked, wait := mem, false, 0;
      this.delays, this.looks, stores := delays, looks, [];
    }

    ghost predicate Valid()
      reads this, Repr(backend)
    {
      this !in Repr(backend) && Healthy(backend) && !locked
    }

    /** The next command is served before cpu_wait gives up. */
    predicate InTime()
      reads this`delays
    {
      delays == [] || delays[0] < MAX_POLLS
    }

    /** All commands to come are served in time. */
    predicate Prompt()
      reads this`delays
    {
      AllPrompt(delays)
    }

    /** No command is outstanding. */
    predicate Quiet()
      reads this, Repr(backend)
    {
      Reg(Registers(backend), 7) & 0x08 == 0
    }

    /** Whether the CPU looks before the k-th of these accesses from now. */
    function Look(k: nat): bool
      reads this`looks
    {
      k < |looks| && looks[k]
    }

    method TryLock() returns (taken: bool)
      modifies this`locked
      ensures locked && taken == old(locked)
    {
      taken := locked;
      locked := true;
    }

    method Unlock()
      modifies this`locked
      ensures !locked
    {
      locked := false;
    }

    /** The CPU looks at the mailbox. */
    method Serve()
      requires this !in Repr(backend) && Healthy(backend)
      modifies this`mem, this`stores, Repr(backend)
      ensures Healthy(backend)
      ensures (Registers(backend), mem) == Served(old(Registers(backend)), old(mem))
      ensures stores == old(stores) + StoreDue(old(Registers(backend)))
    {
      hide Ready, There, Registers, Cell;
      var csr, at := Reg(Registers(backend), 7), Cell(Reg(Registers(backend), 0));
      if csr & 0x08 != 0 {
        if csr & 0x04 != 0 {
          mem := mem[at := Reg(Registers(backend), 1)];
          stores := stores + [(at, Reg(Registers(backend), 1))];
        } else {
          Outside(backend, 2, Reg(mem, at));
        }
        Outside(backend, 7, csr & 0xF7);
      }
    }

    /** A register write of a call, with the CPU possibly looking just before. */
    method Put(addr: bv8, value: bv8)
      requires locked && this !in Repr(backend) && Healthy(backend) && addr < 16
      modifies this`mem, this`stores, this`looks, Repr(backend)
      ensures Healthy(backend)
      ensures looks == if old(looks) == [] then [] else old(looks)[1..]
      ensures var s := Glanced(old(Registers(backend)), old(mem), old(Look(0)));
        Registers(backend) == s.0[Wired(addr) := value] && mem == s.1
      ensures stores == old(stores) + if old(Look(0)) then StoreDue(old(Registers(backend))) else []
    {
      hide Ready, There, Registers, Served, Wired;
      if looks != [] {
        if looks[0] {
          Serve();
        }
        looks := looks[1..];
      }
      CpldWrite(backend, addr, value);
    }

    /** The CPU while the driver polls: it counts down to the look that serves the command. */
    method Tend()
      requires this !in Repr(backend) && Healthy(backend)
      modifies this`mem, this`stores, this`wait, Repr(backend)
      ensures Healthy(backend)
      ensures (Registers(backend), mem) == Glanced(old(Registers(backend)), old(mem), old(wait) == 0)
      ensures stores == old(stores) + if old(wait) == 0 then StoreDue(old(Registers(backend))) else []
      ensures wait == if old(wait) == 0 then 0 else old(wait) - 1
    {
      hide Ready, There, Registers, Served;
      if wait > 0 {
        wait := wait - 1;
      } else {
        Serve();
      }
    }

    /** cpu_wait: 0 exactly if the command is served within MAX_POLLS reads of CSR. */
    method Wait() returns (rc: int)
      requires locked && this !in Repr(backend) && Healthy(backend) && Reg(Registers(backend), 7) & 0x08 != 0
      requires Reg(Served(Registers(backend), mem).0, 7) & 0x08 == 0
      modifies this`mem, this`stores, this`wait, Repr(backend)
      ensures Healthy(backend)
      ensures rc == if old(wait) < MAX_POLLS then 0 else -1
      ensures (Registers(backend), mem) ==
        if old(wait) < MAX_POLLS then Served(old(Registers(backend)), old(mem)) else (old(Registers(backend)), old(mem))
      ensures stores == old(stores) + if old(wait) < MAX_POLLS then StoreDue(old(Registers(backend))) else []
    {
      hide Ready, There, Registers, Served, Wired;
      RegisterNumbers();
      var timeout := 0;
      while true
        invariant Healthy(backend)
        invariant 0 <= timeout < MAX_POLLS && timeout <= old(wait) && wait == old(wait) - timeout
        invariant Registers(backend) == old(Registers(backend)) && mem == old(mem) && stores == old(stores)
        decreases MAX_POLLS - timeout
      {
        Tend();
        var stat := CpldRead(backend, CSR);
        if stat & 0x08 == 0 {
          return 0;
        }
        timeout := timeout + 1;
        if timeout == MAX_POLLS {
          break;
        }
      }
      return -1;
    }

    /** The write of CSR: the next entry of delays applies to this command. */
    method Submit(command: bv8)
      requires locked && this !in Repr(backend) && Healthy(backend)
      modifies this`mem, this`stores, this`looks, this`wait, this`delays, Repr(backend)
      ensures Healthy(backend)
      ensures var s := Glanced(old(Registers(backend)), old(mem), old(Look(0)));
        Registers(backend) == s.0[7 := command] && mem == s.1
      ensures stores == old(stores) + if old(Look(0)) then StoreDue(old(Registers(backend))) else []
      ensures looks == if old(looks) == [] then [] else old(looks)[1..]
      ensures wait == if old(delays) == [] then 0 else old(delays)[0]
      ensures delays == if old(delays) == [] then [] else old(delays)[1..]
    {
      hide Ready, There, Registers, Wired, Glanced, StoreDue;
      RegisterNumbers();
      Put(CSR, command);
      wait := 0;
      if delays != [] {
        wait, delays := delays[0], delays[1..];
      }
    }

    /** The register writes of cpu_read. */
    method SubmitRead(offset: bv8)
      requires locked && this !in Repr(backend) && Healthy(backend)
      modifies this`mem, this`stores, this`looks, this`wait, this`delays, Repr(backend)
      ensures Healthy(backend)
      ensures var s := ReadSetUp(old(Registers(backend)), old(mem), offset, old(Look(0)), old(Look(1)));
        Registers(backend) == s.0[7 := 0x08] && mem == s.1
      ensures old(Quiet()) ==> stores == old(stores)
      ensures wait == if old(delays) == [] then 0 else old(delays)[0]
      ensures delays == if old(delays) == [] then [] else old(delays)[1..]
      ensures Look(0) == old(Look(2))
    {
      hide Ready, There, Registers, Wired, Glanced, StoreDue;
      if Quiet() {
        NothingDue(Registers(backend), mem, Look(0), offset, 0);
        NothingDue(Registers(backend)[0 := offset], mem, Look(1), offset, 0);
      }
      RegisterNumbers();
      Put(AVR_ADDR, offset);
      Submit(0x08);
    }

    /** The register writes of cpu_write. */
    method SubmitWrite(offset: bv8, value: bv8)
      requires locked && this !in Repr(backend) && Healthy(backend)
      modifies this`mem, this`stores, this`looks, this`wait, this`delays, Repr(backend)
      ensures Healthy(backend)
      ensures
        var s := WriteSetUp(old(Registers(backend)), old(mem), offset, value, old(Look(0)), old(Look(1)), old(Look(2)));
        Registers(backend) == s.0[7 := 0x0C] && mem == s.1
      ensures old(Quiet()) ==> stores == old(stores)
      ensures wait == if old(delays) == [] then 0 else old(delays)[0]
      ensures delays == if old(delays) == [] then [] else old(delays)[1..]
    {
      hide Ready, There, Registers, Wired, Glanced, StoreDue;
      if Quiet() {
        NothingDue(Registers(backend), mem, Look(0), offset, value);
        NothingDue(Registers(backend)[0 := offset], mem, Look(1), offset, value);
        NothingDue(Registers(backend)[0 := offset][1 := value], mem, Look(2), offset, value);
      }
      RegisterNumbers();
      Put(AVR_ADDR, offset);
      Put(AVR_DAT, value);
      Submit(0x0C);
    }

    /** cpu_read up to the end of cpu_wait. */
    method AskRead(offset: bv8) returns (rc: int)
      requires locked && this !in Repr(backend) && Healthy(backend)
      modifies this`mem, this`stores, this`looks, this`wait, this`delays, Repr(backend)
      ensures Healthy(backend)
      ensures rc == if old(InTime()) then 0 else -1
      ensures var s := ReadSetUp(old(Registers(backend)), old(mem), offset, old(Look(0)), old(Look(1)));
        (Registers(backend), mem) == Glanced(s.0[7 := 0x08], s.1, old(InTime()))
      ensures old(Quiet()) ==> stores == old(stores)
      ensures delays == if old(delays) == [] then [] else old(delays)[1..]
      ensures Look(0) == old(Look(2))
    {
      hide Ready, There, Registers, Served, ReadSetUp, Reg, StoreDue;
      ghost var s := ReadSetUp(Registers(backend), mem, offset, Look(0), Look(1));
      ReadIsServed(s.0, s.1);
      CommandsDue(s.0);
      SubmitRead(offset);
      rc := Wait();
    }

    /** cpu_write up to the end of cpu_wait. */
    method AskWrite(offset: bv8, value: bv8) returns (rc: int)
      requires locked && this !in Repr(backend) && Healthy(backend)
      modifies this`mem, this`stores, this`looks, this`wait, this`delays, Repr(backend)
      ensures Healthy(backend)
      ensures rc == if old(InTime()) then 0 else -1
      ensures
        var s := WriteSetUp(old(Registers(backend)), old(mem), offset, value, old(Look(0)), old(Look(1)), old(Look(2)));
        (Registers(backend), mem) == Glanced(s.0[7 := 0x0C], s.1, old(InTime()))
      ensures old(Quiet()) ==> stores == old(stores) + if old(InTime()) then [(Cell(offset), value)] else []
      ensures delays == if old(delays) == [] then [] else old(delays)[1..]
    {
      hide Ready, There, Registers, Served, WriteSetUp, Reg, StoreDue;
      ghost var s := WriteSetUp(Registers(backend), mem, offset, value, Look(0), Look(1), Look(2));
      WriteIsServed(s.0, s.1);
      CommandsDue(s.0);
      SetUpKeepsArguments(Registers(backend), mem, offset, value, Look(0), Look(1), Look(2));
      SubmitWrite(offset, value);
      rc := Wait();
    }

    /** The read of HOST_DAT, with the CPU possibly looking just before. */
    method Fetch() returns (res: bv8)
      requires locked && this !in Repr(backend) && Healthy(backend)
      modifies this`mem, this`stores, this`looks, Repr(backend)
      ensures Healthy(backend)
      ensures (Registers(backend), mem) == Glanced(old(Registers(backend)), old(mem), old(Look(0)))
      ensures stores == old(stores) + if old(Look(0)) then StoreDue(old(Registers(backend))) else []
      ensures res == Reg(Registers(backend), 2)
    {
      hide Ready, There, Registers, Served, Wired;
      RegisterNumbers();
      if looks != [] {
        if looks[0] {
          Serve();
        }
        looks := looks[1..];
      }
      res := CpldRead(backend, HOST_DAT);
    }

    /** cpu_read: what the CPU's memory holds if it answers in time or at least before HOST_DAT is read, else what
        HOST_DAT held, both after what an earlier command may have done at the last moment. */
    method Read(offset: bv8) returns (res: bv8)
      requires Valid()
      modifies this, Repr(backend)
      ensures Valid()
      ensures var s := ReadSetUp(old(Registers(backend)), old(mem), offset, old(Look(0)), old(Look(1)));
        mem == s.1 && res == if old(InTime()) || old(Look(2)) then Reg(mem, Cell(offset)) else Reg(s.0, 2)
      ensures old(Quiet()) ==> mem == old(mem)
      ensures old(Quiet()) ==> stores == old(stores)
      ensures old(InTime()) ==> Quiet()
      ensures delays == if old(delays) == [] then [] else old(delays)[1..]
      ensures old(Prompt()) ==> old(InTime()) && Prompt()
    {
      hide Ready, There, Registers, Served, AllPrompt, ReadSetUp, Glanced, Cell, Reg, StoreDue;
      PromptOn(delays);
      ReadOutcome(Registers(backend), mem, offset, Look(0), Look(1), InTime(), Look(2));
      ReadOutcomeStores(Registers(backend), mem, offset, Look(0), Look(1), InTime());
      var taken := TryLock();
      var rc := AskRead(offset);
      res := Fetch();
      Unlock();
    }

    /** cpu_write: 0 exactly if the value is in the CPU's memory; 255 exactly if the command is left to a later
        moment. Nothing else changes but by an earlier command at the last moment. */
    method Write(offset: bv8, value: bv8) returns (res: int)
      requires Valid()
      modifies this, Repr(backend)
      ensures Valid()
      ensures res == if old(InTime()) then 0 else 255
      ensures
        var s := WriteSetUp(old(Registers(backend)), old(mem), offset, value, old(Look(0)), old(Look(1)), old(Look(2)));
        mem == if old(InTime()) then s.1[Cell(offset) := value] else s.1
      ensures old(Quiet()) ==> mem == if old(InTime()) then old(mem)[Cell(offset) := value] else old(mem)
      ensures old(Quiet()) ==> stores == old(stores) + if old(InTime()) then [(Cell(offset), value)] else []
      ensures old(InTime()) ==> Quiet()
      ensures delays == if old(delays) == [] then [] else old(delays)[1..]
      ensures old(Prompt()) ==> old(InTime()) && Prompt()
    {
      hide Ready, There, Registers, Served, AllPrompt, WriteSetUp, Cell, Reg, StoreDue;
      PromptOn(delays);
      WriteOutcome(Registers(backend), mem, offset, value, Look(0), Look(1), Look(2));
      var taken := TryLock();
      var rc := AskWrite(offset, value);
      res := rc % 256;
      Unlock();
    }
  }
}
