/** The function table of module/niagara_module.h:96-101 with its four implementations: what the
    layers above believe to have behind it is one register file. */
module FunctionTable {
  import opened CpldDevice
  import opened PinTransport
  import opened Transports

  datatype Backend = Pins(pins: PinBus) | Flash(flash: FlashBus) | Mdio(mdio: MdioBus)

  function Repr(b: Backend): set<object> {
    match b
    case Pins(pins) => {pins}
    case Flash(flash) => {flash}
    case Mdio(mdio) => {mdio}
  }

  function Registers(b: Backend): Memory
    reads Repr(b)
  {
    match b
    case Pins(pins) => pins.board.cpld.mem
    case Flash(flash) => flash.mem
    case Mdio(mdio) => mdio.slave.mem
  }

  /** No strike is to come, no lock is taken and no MDIO command takes too long or is outstanding. */
  ghost predicate Calm(b: Backend)
    reads Repr(b)
  {
    match b
    case Pins(pins) => pins.Valid() && pins.StrikesLeft() == 0 && !pins.locked
    case Flash(flash) => true
    case Mdio(mdio) =>
      && mdio.Valid() && !mdio.locked && !InProgress(mdio.msca)
      && forall d :: d in mdio.delays ==> d < Transports.MAX_POLLS
  }

  /** What cpld_init brings about: the pins are driven, the flash window is open. */
  ghost predicate Ready(b: Backend)
    reads Repr(b)
  {
    Calm(b) && match b
      case Pins(pins) => pins.Driving()
      case Flash(flash) => flash.Enabled()
      case Mdio(mdio) => true
  }

  /** The CPLD is where hw_ctrl says. */
  predicate There(b: Backend) {
    b.Mdio? ==> b.mdio.devad == b.mdio.answers
  }

  /** Nothing in the way of a transfer. */
  ghost predicate Healthy(b: Backend)
    reads Repr(b)
  {
    Ready(b) && There(b)
  }

  /** A write to the registers, if they are there at all. */
  method CpldWrite(b: Backend, addr: bv8, data: bv8)
    requires Ready(b) && addr < 16
    modifies Repr(b)
    ensures Ready(b)
    ensures Registers(b) == if There(b) then old(Registers(b))[Wired(addr) := data] else old(Registers(b))
  {
    hide Wired, Number;
    WiredIsNumber(addr);
    match b {
      case Pins(pins) => var _, _, _ := pins.Write(addr, data);
      case Flash(flash) => var _ := flash.Write(addr, data);
      case Mdio(mdio) => var _ := mdio.Write(addr, data);
    }
  }

  /** A read of the registers, which finds all ones where nothing is. */
  method CpldRead(b: Backend, addr: bv8) returns (value: bv8)
    requires Ready(b) && addr < 16
    modifies Repr(b)
    ensures Ready(b)
    ensures Registers(b) == old(Registers(b))
    ensures value == if There(b) then Reg(Registers(b), Wired(addr)) else 0xFF
  {
    hide Wired, Number;
    WiredIsNumber(addr);
    match b {
      case Pins(pins) =>
        var res, _, _ := pins.Read(addr);
        value := res;
      case Flash(flash) => value := flash.Read(addr);
      case Mdio(mdio) =>
        var res, _ := mdio.Read(addr);
        value := res;
    }
  }

  lemma KickMemoryIsKicked(m: Memory, segment: int)
    requires 0 <= segment < 4
    ensures KickMemory(m, segment) == m[7 := Kicked(true, Reg(m, 7), segment)]
  {
    hide PutSlice;
  }

  /** The kick of the table. Its bit reaches CSR on every backend, but only the pins leave the rest of
      CSR as it is: the two byte-wide backends clear it. */
  method CpldKick(b: Backend, segment: int)
    requires Healthy(b) && 0 <= segment < 4
    modifies Repr(b)
    ensures Healthy(b)
    ensures Registers(b) == old(Registers(b))[7 := Kicked(b.Pins?, Reg(old(Registers(b)), 7), segment)]
  {
    hide KickByte, KickMemory, KickCommits, Follows, EndsWith, PutSlice;
    KickMemoryIsKicked(Registers(b), segment);
    match b {
      case Pins(pins) => var _, _ := pins.Kick(segment);
      case Flash(flash) => var _ := flash.Kick(segment);
      case Mdio(mdio) => var _ := mdio.Kick(segment);
    }
  }

  function Kicked(sliced: bool, csr: bv8, segment: int): bv8
    requires 0 <= segment < 4
  {
    if sliced then var c := KickCommits(segment)[0]; PutSlice(csr, c.bsl, c.dat) else KickByte(segment)
  }

  /** Every kick sets the bit of its segment. The pin kick leaves the mailbox bits of CSR alone; the byte-wide one
      clears them, so the bit that says a command is outstanding stays exactly if it was clear. */
  lemma KicksCompared(csr: bv8, segment: int)
    requires 0 <= segment < 4
    ensures KickByte(segment) == Kicked(true, 0, segment)
    ensures Kicked(true, csr, segment) & KickByte(segment) != 0 && Kicked(true, csr, segment) & 0x0F == csr & 0x0F
    ensures Kicked(false, csr, segment) & KickByte(segment) != 0
    ensures Kicked(false, csr, segment) & 0x08 == csr & 0x08 <==> csr & 0x08 == 0
  {
    KickSetsItsBit(csr, segment);
  }

  // Sequences of calls through the table.

  datatype Access = WriteTo(addr: bv8, data: bv8) | ReadFrom(addr: bv8)

  /** A register file under the same calls: its contents afterwards and what the reads saw. */
  function Behaviour(m: Memory, accesses: seq<Access>): (Memory, seq<bv8>)
    decreases |accesses|
  {
    if accesses == [] then (m, [])
    else
      var before := Behaviour(m, accesses[..|accesses| - 1]);
      match accesses[|accesses| - 1]
      case WriteTo(addr, data) => (before.0[Wired(addr) := data], before.1)
      case ReadFrom(addr) => (before.0, before.1 + [Reg(before.0, Wired(addr))])
  }

  /** A client of the table: whatever it does, through whichever backend, it sees that register file. */
  method Client(b: Backend, accesses: seq<Access>) returns (seen: seq<bv8>)
    requires Healthy(b) && forall i | 0 <= i < |accesses| :: accesses[i].addr < 16
    modifies Repr(b)
    ensures Healthy(b)
    ensures (Registers(b), seen) == Behaviour(old(Registers(b)), accesses)
  {
    hide Ready, Registers, Wired, Reg;
    seen := [];
    for i := 0 to |accesses|
      invariant Healthy(b)
      invariant (Registers(b), seen) == Behaviour(old(Registers(b)), accesses[..i])
    {
      assert accesses[..i + 1][..i] == accesses[..i];
      match accesses[i] {
        case WriteTo(addr, data) => CpldWrite(b, addr, data);
        case ReadFrom(addr) =>
          var value := CpldRead(b, addr);
          seen := seen + [value];
      }
    }
    assert accesses[..|accesses|] == accesses;
  }

  /** cpld_init through the table; i350 stands for a card name containing N522. Whatever state the link is in, it
      is ready afterwards; a link that was ready keeps its registers but for the fix. */
  method CpldInit(b: Backend, i350: bool)
    requires Calm(b)
    modifies Repr(b)
    ensures Ready(b)
    ensures old(Ready(b)) || !b.Pins? ==>
      Registers(b) == if b.Pins? && b.pins.kind.Sdp? && i350 then PowerOffFix(old(Registers(b))) else old(Registers(b))
    ensures b.Pins? && b.pins.kind.Sdp? && i350 ==> Reg(Registers(b), 1) == 0x55 && Reg(Registers(b), 8) & 0x02 == 0x02
  {
    hide PowerOffFix;
    match b {
      case Pins(pins) =>
        ghost var ready := pins.Init(i350);
        PowerOffFixExactly(ready.mem, 1);
      case Flash(flash) => flash.Init();
      case Mdio(mdio) =>
    }
  }

  /** cpld_accesible of module/cpld_validate.c: the CPLD is recognised exactly if it is there, and AVR_ADDR is left
      changed. */
  method CpldAccessible(b: Backend, i350: bool) returns (ok: bool)
    requires Calm(b)
    modifies Repr(b)
    ensures Ready(b)
    ensures ok <==> There(b)
    ensures ok ==> Reg(Registers(b), 0) == 0x02
    ensures old(Ready(b)) || !b.Pins? ==>
      var kept := if b.Pins? && b.pins.kind.Sdp? && i350 then PowerOffFix(old(Registers(b))) else old(Registers(b));
      Registers(b) == if ok then kept[0 := 0x02] else kept
  {
    hide Ready, Calm, Registers, PowerOffFix;
    assert Wired(AVR_ADDR) == 0;
    CpldInit(b, i350);
    CpldWrite(b, AVR_ADDR, 0x02);
    var res := CpldRead(b, AVR_ADDR);
    ok := res == 0x02;
  }
}
