/** The CPU mailbox of module/cpu.c as a transition system: any number of threads run cpu_read and
    cpu_write, each a sequence of CPLD accesses of four slices under the card's CPLD lock, while
    other threads kick the watchdog and the card's CPU answers whenever it likes. */
module Mailbox {
  /** Two bits, the unit the CPLD link carries. */
  datatype Slice = Slice(high: bool, low: bool)

  datatype Byte = Byte(s0: Slice, s1: Slice, s2: Slice, s3: Slice)

  const NONE := Slice(false, false)

  function Get(b: Byte, k: int): Slice {
    if k == 0 then b.s0 else if k == 1 then b.s1 else if k == 2 then b.s2 else b.s3
  }

  function Put(b: Byte, k: int, s: Slice): Byte {
    if k == 0 then b.(s0 := s) else if k == 1 then b.(s1 := s) else if k == 2 then b.(s2 := s) else b.(s3 := s)
  }

  /** The first n slices of two bytes are the same. */
  predicate Agree(a: Byte, b: Byte, n: int) {
    && (n >= 1 ==> a.s0 == b.s0) && (n >= 2 ==> a.s1 == b.s1)
    && (n >= 3 ==> a.s2 == b.s2) && (n >= 4 ==> a.s3 == b.s3)
  }

  type Memory = map<Byte, Byte>

  function Lookup(m: Memory, off: Byte): Byte {
    if off in m then m[off] else Byte(NONE, NONE, NONE, NONE)
  }

  datatype Op = ReadOp(off: Byte) | WriteOp(off: Byte, val: Byte)

  /** AVR_ADDR, AVR_DAT, HOST_DAT and CSR of the CPLD, and the CPU's own registers behind them.
      Bit 3 of CSR says that a command is outstanding, bit 2 that it is a write. */
  datatype Device = Device(addr: Byte, dat: Byte, host: Byte, csr: Byte, mem: Memory)

  predicate Busy(d: Device) {
    d.csr.s1.high
  }

  /** The value cpu_read and cpu_write put in CSR: 0x8 and 0xC. */
  function Command(op: Op): Byte {
    Byte(NONE, Slice(true, op.WriteOp?), NONE, NONE)
  }

  /** The accesses of cpu_read and cpu_write in order; Poll is one round of cpu_wait. */
  datatype Stage = SetAddr | SetDat | SetCsr | Poll | Fetch | Release

  /** Working: inside the CPU section; sub is 0 outside and 1 to 5 inside the CPLD section, where
      sub - 1 slices of the access have been done. acc collects the slices of a read. */
  datatype Thread =
    | Idle
    | Waiting(op: Op)
    | Working(op: Op, stage: Stage, sub: int, acc: Byte, polls: int, late: bool)
    | Kicking(segment: int, sent: bool)

  datatype Option<T> = None | Some(value: T)

  /** cpu and cpld are the lock bits; that a taken lock names its holder, and issued and book, are
      annotations no step consults. issued is the call whose command is outstanding, book holds for
      each offset the value of the last cpu_write whose command is not outstanding any more. */
  datatype State = State(dev: Device, cpu: Option<int>, cpld: Option<int>, threads: seq<Thread>,
                         issued: Option<Op>, book: Memory)

  const MAX_POLLS := 10000

  predicate Accessing(t: Thread) {
    (t.Working? && t.sub >= 1) || t.Kicking?
  }

  // One slice of one access.

  function WriteSlice(d: Device, op: Op, stage: Stage, k: int): Device {
    match stage
    case SetAddr => d.(addr := Put(d.addr, k, Get(op.off, k)))
    case SetDat => if op.WriteOp? then d.(dat := Put(d.dat, k, Get(op.val, k))) else d
    case SetCsr => d.(csr := Put(d.csr, k, Get(Command(op), k)))
    case _ => d
  }

  function ReadSlice(d: Device, acc: Byte, stage: Stage, k: int): Byte {
    match stage
    case Poll => Put(acc, k, Get(d.csr, k))
    case Fetch => Put(acc, k, Get(d.host, k))
    case _ => acc
  }

  /** The stage after cpu_wait. */
  function AfterWait(op: Op): Stage {
    if op.ReadOp? then Fetch else Release
  }

  /** The end of one access: module/cpu.c:47-50 and :60-63, with the loop of cpu_wait. */
  function Advance(t: Thread): Thread
    requires t.Working?
  {
    var t := t.(sub := 0);
    match t.stage
    case SetAddr => t.(stage := if t.op.WriteOp? then SetDat else SetCsr)
    case SetDat => t.(stage := SetCsr)
    case SetCsr => t.(stage := Poll, polls := 0)
    case Poll =>
      if !t.acc.s1.high then t.(stage := AfterWait(t.op))
      else if t.polls + 1 == MAX_POLLS then t.(stage := AfterWait(t.op), late := true)
      else t.(polls := t.polls + 1)
    case Fetch => t.(stage := Release)
    case Release => t
  }

  function KickSlice(d: Device, segment: int): Device {
    if segment == 0 then d.(csr := d.csr.(s2 := Slice(false, true)))
    else if segment == 1 then d.(csr := d.csr.(s2 := Slice(true, false)))
    else if segment == 2 then d.(csr := d.csr.(s3 := Slice(false, true)))
    else if segment == 3 then d.(csr := d.csr.(s3 := Slice(true, false)))
    else d
  }

  /** The whole byte the flash and MDIO backends write to CSR for a kick: 0x10 << segment. */
  function WideKickByte(segment: int): Byte {
    if segment == 0 then Byte(NONE, NONE, Slice(false, true), NONE)
    else if segment == 1 then Byte(NONE, NONE, Slice(true, false), NONE)
    else if segment == 2 then Byte(NONE, NONE, NONE, Slice(false, true))
    else if segment == 3 then Byte(NONE, NONE, NONE, Slice(true, false))
    else Byte(NONE, NONE, NONE, NONE)
  }

  /** Call, Kick: a thread enters the driver. Step: a thread makes its next move, or spins on a lock.
      WideKick: the kick of a backend that writes CSR at once, between two accesses. Answer: the CPU carries
      out an outstanding command. Notice: the CPU clears the kick bits. */
  datatype Action =
    | Call(who: int, op: Op)
    | Kick(who: int, segment: int)
    | Step(who: int)
    | WideKick(segment: int)
    | Answer
    | Notice

  function Record(book: Memory, issued: Option<Op>): Memory {
    match issued
    case Some(WriteOp(off, val)) => book[off := val]
    case _ => book
  }

  /** The memory as it should be once the outstanding command has been carried out. */
  function Effective(s: State): Memory {
    if Busy(s.dev) then Record(s.book, s.issued) else s.book
  }

  function StepWorking(s: State, i: int, t: Thread): State
    requires 0 <= i < |s.threads| && t.Working?
  {
    if t.stage == Release then s.(cpu := None, threads := s.threads[i := Idle])
    else if t.sub == 0 then
      if s.cpld.Some? then s else s.(cpld := Some(i), threads := s.threads[i := t.(sub := 1)])
    else if t.sub == 5 then s.(cpld := None, threads := s.threads[i := Advance(t)])
    else
      var k := t.sub - 1;
      s.(dev := WriteSlice(s.dev, t.op, t.stage, k),
         issued := if t.stage == SetCsr && k == 1 then Some(t.op) else s.issued,
         book := if t.stage == SetCsr && k == 1 then Effective(s) else s.book,
         threads := s.threads[i := t.(sub := t.sub + 1, acc := ReadSlice(s.dev, t.acc, t.stage, k))])
  }

  function StepThread(s: State, i: int): State
    requires 0 <= i < |s.threads|
  {
    match s.threads[i]
    case Idle => s
    case Waiting(op) =>
      if s.cpu.Some? then s
      else s.(cpu := Some(i), threads := s.threads[i := Working(op, SetAddr, 0, op.off, 0, false)])
    case Working(_, _, _, _, _, _) => StepWorking(s, i, s.threads[i])
    case Kicking(segment, sent) =>
      if sent then s.(cpld := None, threads := s.threads[i := Idle])
      else s.(dev := KickSlice(s.dev, segment), threads := s.threads[i := Kicking(segment, true)])
  }

  /** The CPU carries out the command it finds in the mailbox registers. */
  function Execute(d: Device): Device {
    var d1 := if d.csr.s1.low then d.(mem := d.mem[d.addr := d.dat]) else d.(host := Lookup(d.mem, d.addr));
    d1.(csr := d.csr.(s1 := d.csr.s1.(high := false)))
  }

  function Next(s: State, a: Action): State {
    match a
    case Call(i, op) =>
      if 0 <= i < |s.threads| && s.threads[i].Idle? then s.(threads := s.threads[i := Waiting(op)]) else s
    case Kick(i, segment) =>
      if 0 <= i < |s.threads| && s.threads[i].Idle? && s.cpld.None?
      then s.(cpld := Some(i), threads := s.threads[i := Kicking(segment, false)]) else s
    case Step(i) => if 0 <= i < |s.threads| then StepThread(s, i) else s
    case WideKick(segment) => if s.cpld.None? then s.(dev := s.dev.(csr := WideKickByte(segment))) else s
    case Answer =>
      if Busy(s.dev) then s.(dev := Execute(s.dev), issued := None, book := Record(s.book, s.issued)) else s
    case Notice => s.(dev := s.dev.(csr := s.dev.csr.(s2 := NONE, s3 := NONE)))
  }

  // The locks.

  /** The lock bits tell who is inside which section, and only then. */
  predicate Locks(s: State) {
    && (forall i :: 0 <= i < |s.threads| ==> (s.threads[i].Working? <==> s.cpu == Some(i)))
    && (forall i :: 0 <= i < |s.threads| ==> (Accessing(s.threads[i]) <==> s.cpld == Some(i)))
    && (s.cpu.Some? ==> 0 <= s.cpu.value < |s.threads|)
    && (s.cpld.Some? ==> 0 <= s.cpld.value < |s.threads|)
    && (forall i :: 0 <= i < |s.threads| && s.threads[i].Working? ==>
          0 <= s.threads[i].sub <= 5 && (s.threads[i].stage == Release ==> s.threads[i].sub == 0))
  }

  lemma AdvanceWorks(t: Thread)
    requires t.Working?
    ensures Advance(t).Working? && Advance(t).sub == 0 && Advance(t).op == t.op
  {
  }

  lemma StepKeepsLocks(s: State, i: int)
    requires Locks(s) && 0 <= i < |s.threads|
    ensures Locks(StepThread(s, i))
  {
    if s.threads[i].Working? {
      AdvanceWorks(s.threads[i]);
    }
    hide Advance, WriteSlice, ReadSlice, KickSlice;
  }

  /** Every action whatsoever keeps the lock bits right. */
  lemma NextKeepsLocks(s: State, a: Action)
    requires Locks(s)
    ensures Locks(Next(s, a))
  {
    if a.Step? && 0 <= a.who < |s.threads| {
      StepKeepsLocks(s, a.who);
    }
    hide StepThread;
  }

  // Runs.

  function Exec(s: State, actions: seq<Action>): State
    decreases |actions|
  {
    if actions == [] then s else Next(Exec(s, actions[..|actions| - 1]), actions[|actions| - 1])
  }

  lemma {:induction false} RunKeepsLocks(s: State, actions: seq<Action>)
    requires Locks(s)
    ensures Locks(Exec(s, actions))
    decreases |actions|
  {
    hide Locks, Next;
    if actions != [] {
      RunKeepsLocks(s, actions[..|actions| - 1]);
      NextKeepsLocks(Exec(s, actions[..|actions| - 1]), actions[|actions| - 1]);
    }
  }

  /** In every state of every run at most one thread is inside the CPU section and at most one inside
      the CPLD section of the card, a thread waiting for the CPU lock holds nothing, and whoever holds
      the CPLD lock can move: locks are taken in the order CPU, CPLD, so no cycle of waiting exists. */
  lemma LockDiscipline(start: State, actions: seq<Action>, i: int, j: int)
    requires Locks(start)
    ensures var s := Exec(start, actions);
      0 <= i < |s.threads| && 0 <= j < |s.threads| ==>
        && (s.threads[i].Working? && s.threads[j].Working? ==> i == j)
        && (Accessing(s.threads[i]) && Accessing(s.threads[j]) ==> i == j)
        && (s.threads[i].Waiting? ==> s.cpu != Some(i) && s.cpld != Some(i))
        && (Accessing(s.threads[i]) ==> StepThread(s, i) != s)
  {
    RunKeepsLocks(start, actions);
    hide Exec;
    var s := Exec(start, actions);
    if 0 <= i < |s.threads| && Accessing(s.threads[i]) {
      HolderMoves(s, i);
    }
  }

  lemma HolderMoves(s: State, i: int)
    requires Locks(s) && 0 <= i < |s.threads| && Accessing(s.threads[i])
    ensures StepThread(s, i) != s
  {
    hide WriteSlice, ReadSlice, KickSlice, Advance;
    var t := s.threads[i];
    if t.Working? && 1 <= t.sub <= 4 {
      assert StepThread(s, i).threads[i].sub == t.sub + 1;
    }
  }

  /** No run deadlocks: as long as some thread is inside the driver, some thread can move. */
  lemma SomeThreadMoves(start: State, actions: seq<Action>, i: int) returns (mover: int)
    requires Locks(start)
    requires 0 <= i < |Exec(start, actions).threads| && !Exec(start, actions).threads[i].Idle?
    ensures var s := Exec(start, actions); 0 <= mover < |s.threads| && StepThread(s, mover) != s
  {
    RunKeepsLocks(start, actions);
    hide Exec;
    var s := Exec(start, actions);
    if s.cpld.Some? {
      mover := s.cpld.value;
      HolderMoves(s, mover);
    } else if s.cpu.Some? {
      mover := s.cpu.value;
      assert StepThread(s, mover).cpld.Some? || StepThread(s, mover).cpu.None?;
    } else {
      mover := i;
      assert StepThread(s, i).cpu.Some?;
    }
  }

  // One call and the registers.

  /** The command of op has been carried out and its answer is there. */
  predicate Carried(d: Device, op: Op) {
    && !Busy(d)
    && (op.ReadOp? ==> d.host == Lookup(d.mem, op.off))
    && (op.WriteOp? ==> Lookup(d.mem, op.off) == op.val)
  }

  /** CSR asks for what op wants, and the other registers hold its arguments. */
  predicate Asked(d: Device, op: Op) {
    Busy(d) && (d.csr.s1.low <==> op.WriteOp?) && d.addr == op.off && (op.WriteOp? ==> d.dat == op.val)
  }

  /** What a call has made of the registers at each program point, whatever happened before it. */
  predicate Holds(d: Device, t: Thread)
    requires t.Working?
  {
    var done := if t.sub == 0 then 0 else t.sub - 1;
    match t.stage
    case SetAddr => Agree(d.addr, t.op.off, done) && !t.late
    case SetDat => d.addr == t.op.off && t.op.WriteOp? && Agree(d.dat, t.op.val, done) && !t.late
    case SetCsr =>
      && d.addr == t.op.off && (t.op.WriteOp? ==> d.dat == t.op.val) && !t.late
      && (done >= 2 ==> Asked(d, t.op) || Carried(d, t.op))
    case Poll =>
      && (Asked(d, t.op) || Carried(d, t.op)) && !t.late && (done >= 2 && !t.acc.s1.high ==> !Busy(d))
      && 0 <= t.polls < MAX_POLLS
    case Fetch => t.op.ReadOp? && (t.late || (Carried(d, t.op) && Agree(t.acc, d.host, done)))
    case Release => t.late || (Carried(d, t.op) && (t.op.ReadOp? ==> t.acc == Lookup(d.mem, t.op.off)))
  }

  predicate OwnCall(s: State)
    requires Locks(s)
  {
    s.cpu.Some? ==> Holds(s.dev, s.threads[s.cpu.value])
  }

  /** A byte-wide kick does not come while a command is outstanding. */
  predicate Gentle(s: State, a: Action) {
    a.WideKick? && s.cpld.None? ==> !Busy(s.dev)
  }

  lemma AdvanceHolds(d: Device, t: Thread)
    requires t.Working? && 0 <= t.sub <= 5 && Holds(d, t)
    ensures t.sub == 5 && t.stage != Release ==> Holds(d, Advance(t))
    ensures t.sub == 0 && t.stage != Release ==> Holds(d, t.(sub := 1))
  {
  }

  lemma SliceHolds(d: Device, t: Thread)
    requires t.Working? && 1 <= t.sub <= 4 && t.stage != Release && Holds(d, t)
    ensures Holds(WriteSlice(d, t.op, t.stage, t.sub - 1),
                  t.(sub := t.sub + 1, acc := ReadSlice(d, t.acc, t.stage, t.sub - 1)))
  {
  }

  lemma StepKeepsOwnCall(s: State, i: int)
    requires Locks(s) && 0 <= i < |s.threads| && OwnCall(s)
    ensures Locks(StepThread(s, i)) && OwnCall(StepThread(s, i))
  {
    StepKeepsLocks(s, i);
    var t := s.threads[i];
    if t.Working? && t.stage != Release {
      AdvanceHolds(s.dev, t);
      if 1 <= t.sub <= 4 {
        SliceHolds(s.dev, t);
      }
    } else if t.Kicking? && !t.sent {
      if s.cpu.Some? {
        KickHolds(s.dev, t.segment, s.threads[s.cpu.value]);
      }
    }
    hide Advance, Holds, WriteSlice, ReadSlice, KickSlice;
    if t.Waiting? && s.cpu.None? {
      BeginHolds(s.dev, t.op);
    }
  }

  lemma BeginHolds(d: Device, op: Op)
    ensures Holds(d, Working(op, SetAddr, 0, op.off, 0, false))
  {
  }

  lemma KickHolds(d: Device, segment: int, t: Thread)
    requires t.Working? && Holds(d, t)
    ensures Holds(KickSlice(d, segment), t)
  {
  }

  lemma OthersHold(s: State, a: Action, t: Thread)
    requires t.Working? && Holds(s.dev, t) && !a.Step? && Gentle(s, a)
    ensures Holds(Next(s, a).dev, t)
  {
  }

  lemma NextKeepsOwnCall(s: State, a: Action)
    requires Locks(s) && OwnCall(s) && Gentle(s, a)
    ensures Locks(Next(s, a)) && OwnCall(Next(s, a))
  {
    NextKeepsLocks(s, a);
    if a.Step? {
      if 0 <= a.who < |s.threads| {
        StepKeepsOwnCall(s, a.who);
      }
    } else if s.cpu.Some? {
      OthersHold(s, a, s.threads[s.cpu.value]);
    }
    hide Holds, StepThread, Execute;
  }

  /** No byte-wide kick of the run comes while a command is outstanding; on the pin transports there
      are no such kicks at all. */
  predicate AllGentle(s: State, actions: seq<Action>)
    decreases |actions|
  {
    actions == [] ||
    (AllGentle(s, actions[..|actions| - 1]) && Gentle(Exec(s, actions[..|actions| - 1]), actions[|actions| - 1]))
  }

  lemma {:induction false} RunKeepsOwnCall(s: State, actions: seq<Action>)
    requires Locks(s) && OwnCall(s) && AllGentle(s, actions)
    ensures Locks(Exec(s, actions)) && OwnCall(Exec(s, actions))
    decreases |actions|
  {
    hide Locks, OwnCall, Next, Gentle;
    if actions != [] {
      RunKeepsOwnCall(s, actions[..|actions| - 1]);
      NextKeepsOwnCall(Exec(s, actions[..|actions| - 1]), actions[|actions| - 1]);
    }
  }

  /** A finished call: what it was, what it returned, and whether cpu_wait gave up. */
  datatype Finished = Finished(op: Op, result: Byte, late: bool)

  function FinishedBy(s: State, a: Action): seq<Finished> {
    if a.Step? && 0 <= a.who < |s.threads| && s.threads[a.who].Working? && s.threads[a.who].stage == Release
    then [Finished(s.threads[a.who].op, s.threads[a.who].acc, s.threads[a.who].late)] else []
  }

  /** In every run, however many timed-out commands were left behind: when a write ends in time its value is
      in the CPU's memory, when a read ends in time it returns what the CPU's memory holds, and in
      either case nothing is outstanding. */
  lemma InTimeCallsAreExact(start: State, actions: seq<Action>, a: Action)
    requires Locks(start) && OwnCall(start) && AllGentle(start, actions)
    ensures var s := Exec(start, actions);
      var f := FinishedBy(s, a);
      f != [] && !f[0].late ==>
        && !Busy(s.dev)
        && Lookup(s.dev.mem, f[0].op.off) == (if f[0].op.WriteOp? then f[0].op.val else f[0].result)
        && Next(s, a).dev == s.dev
  {
    RunKeepsOwnCall(start, actions);
    hide Exec;
  }

  // The registers and the calls before.

  /** A write is outstanding. */
  predicate Pending(d: Device, issued: Option<Op>) {
    Busy(d) && issued.Some? && issued.value.WriteOp?
  }

  /** AVR_ADDR when the first k slices of off have been written over the offset from. */
  function Passing(from: Byte, off: Byte, k: int): Byte {
    Byte(if k >= 1 then off.s0 else from.s0, if k >= 2 then off.s1 else from.s1,
         if k >= 3 then off.s2 else from.s2, if k >= 4 then off.s3 else from.s3)
  }

  /** It is all the same to op, and to the calls after it, whether val is stored at an offset: it is there
      already, or op is going to store its own value there. */
  predicate Spared(m: Memory, at: Byte, val: Byte, op: Op) {
    Lookup(m, at) == val || (op.WriteOp? && at == op.off)
  }

  predicate AllSpared(m: Memory, late: Op, op: Op)
    requires late.WriteOp?
  {
    forall k | 0 <= k <= 4 :: Spared(m, Passing(late.off, op.off, k), late.val, op)
  }

  /** A call may begin: no write is outstanding, or one that spares all offsets AVR_ADDR passes through on its way
      from the offset of that write to that of the call. */
  predicate MayBegin(d: Device, issued: Option<Op>, op: Op) {
    Pending(d, issued) ==> AllSpared(d.mem, issued.value, op)
  }

  /** The command of op has been carried out and its answer is there. */
  predicate Answered(d: Device, book: Memory, op: Op) {
    && !Busy(d)
    && (op.ReadOp? ==> d.host == Lookup(book, op.off))
    && (op.WriteOp? ==> Lookup(book, op.off) == op.val)
  }

  predicate Submitted(d: Device, issued: Option<Op>, book: Memory, op: Op) {
    if Busy(d) then issued == Some(op) && d.addr == op.off && (op.WriteOp? ==> d.dat == op.val)
    else Answered(d, book, op)
  }

  /** What the holder of the CPU lock knows at each program point. */
  predicate Knows(d: Device, issued: Option<Op>, book: Memory, t: Thread)
    requires t.Working?
  {
    var done := if t.sub == 0 then 0 else t.sub - 1;
    && 0 <= t.sub <= 5
    && match t.stage
       case SetAddr =>
         && MayBegin(d, issued, t.op) && Agree(d.addr, t.op.off, done) && !t.late
         && (Pending(d, issued) ==> d.addr == Passing(issued.value.off, t.op.off, done) && d.dat == issued.value.val)
       case SetDat =>
         && MayBegin(d, issued, t.op) && d.addr == t.op.off && t.op.WriteOp? && Agree(d.dat, t.op.val, done) && !t.late
       case SetCsr =>
         && d.addr == t.op.off && (t.op.WriteOp? ==> d.dat == t.op.val) && !t.late
         && (if done >= 2 then Submitted(d, issued, book, t.op)
             else MayBegin(d, issued, t.op) && (Pending(d, issued) && t.op.ReadOp? ==> d.dat == issued.value.val))
       case Poll =>
         && Submitted(d, issued, book, t.op) && !t.late && (done >= 2 && !t.acc.s1.high ==> !Busy(d))
         && 0 <= t.polls < MAX_POLLS
       case Fetch =>
         && t.op.ReadOp?
         && (if t.late then Submitted(d, issued, book, t.op) else Answered(d, book, t.op) && Agree(t.acc, d.host, done))
       case Release =>
         && t.sub == 0
         && (if t.late then Submitted(d, issued, book, t.op)
             else Answered(d, book, t.op) && (t.op.ReadOp? ==> t.acc == Lookup(book, t.op.off)))
  }

  /** The holder of the CPU lock has handed its command over. */
  predicate HandedOver(t: Thread) {
    t.Working? && (t.stage == Poll || t.stage == Fetch || t.stage == Release || (t.stage == SetCsr && t.sub >= 3))
  }

  /** The offsets at which the CPU's memory may differ from the book: that of a write being prepared, over
      which an earlier one may still be carried out with half of the new value, and that of the outstanding
      write. */
  function Unsettled(s: State): set<Byte>
    requires Locks(s)
  {
    (if s.cpu.Some? && !HandedOver(s.threads[s.cpu.value]) && s.threads[s.cpu.value].op.WriteOp?
     then {s.threads[s.cpu.value].op.off} else {}) +
    (if Pending(s.dev, s.issued) then {s.issued.value.off} else {})
  }

  ghost predicate SameBut(m: Memory, n: Memory, but: set<Byte>) {
    forall off | off !in but :: Lookup(m, off) == Lookup(n, off)
  }

  /** The book knows what command is outstanding. */
  predicate Matches(d: Device, issued: Option<Op>) {
    if Busy(d) then issued.Some? && (d.csr.s1.low <==> issued.value.WriteOp?) else issued.None?
  }

  /** The device, the outstanding command and the book agree. */
  ghost predicate Told(s: State)
    requires Locks(s)
  {
    && SameBut(s.dev.mem, s.book, Unsettled(s))
    && Matches(s.dev, s.issued)
    && (s.cpu.None? && Pending(s.dev, s.issued) ==> s.dev.addr == s.issued.value.off && s.dev.dat == s.issued.value.val)
    && (s.cpu.Some? ==> Knows(s.dev, s.issued, s.book, s.threads[s.cpu.value]))
  }

  ghost predicate Inv(s: State) {
    Locks(s) && Told(s)
  }

  /** The action takes the CPU lock. */
  predicate Acquires(s: State, a: Action) {
    a.Step? && 0 <= a.who < |s.threads| && s.threads[a.who].Waiting? && s.cpu.None?
  }

  /** A call begins only when it may, and a byte-wide kick comes only when no command is outstanding. */
  predicate OrderlyAction(s: State, a: Action) {
    (Acquires(s, a) ==> MayBegin(s.dev, s.issued, s.threads[a.who].op)) && Gentle(s, a)
  }

  lemma CallKeeps(s: State, a: Action)
    requires Inv(s) && (a.Call? || a.Kick?)
    ensures Inv(Next(s, a))
  {
    NextKeepsLocks(s, a);
    hide Knows;
  }

  /** A late answer while t prepares its command: what it stores, wherever AVR_ADDR points by then, makes no
      difference but at the offset t is going to write. */
  lemma LateAnswerIsSpared(d: Device, issued: Option<Op>, book: Memory, t: Thread, but: set<Byte>)
    requires t.Working? && !HandedOver(t) && Knows(d, issued, book, t) && Pending(d, issued)
    requires SameBut(d.mem, book, but + {issued.value.off}) && (t.op.WriteOp? ==> t.op.off in but)
    ensures SameBut(d.mem[d.addr := d.dat], book[issued.value.off := issued.value.val], but)
  {
    var late := issued.value;
    var done := if t.sub == 0 then 0 else t.sub - 1;
    assert Passing(late.off, t.op.off, 0) == late.off && Passing(late.off, t.op.off, 4) == t.op.off;
    assert Spared(d.mem, late.off, late.val, t.op) && Spared(d.mem, t.op.off, late.val, t.op);
    forall off | off !in but
      ensures Lookup(d.mem[d.addr := d.dat], off) == Lookup(book[late.off := late.val], off)
    {
      assert off != late.off ==> Lookup(d.mem, off) == Lookup(book, off);
      if t.stage == SetAddr {
        assert Spared(d.mem, Passing(late.off, t.op.off, done), late.val, t.op);
      }
    }
  }

  lemma AnswerKeeps(s: State, a: Action)
    requires Inv(s) && (a.Answer? || a.Notice?)
    ensures Inv(Next(s, a))
  {
    NextKeepsLocks(s, a);
    if a.Answer? && Pending(s.dev, s.issued) && s.cpu.Some? && !HandedOver(s.threads[s.cpu.value]) {
      var t := s.threads[s.cpu.value];
      LateAnswerIsSpared(s.dev, s.issued, s.book, t, if t.op.WriteOp? then {t.op.off} else {});
    }
    hide AllSpared, Passing;
  }

  /** Between accesses a byte-wide kick does no harm exactly if no command is outstanding. */
  lemma WideKickExactly(s: State, segment: int)
    requires Inv(s) && s.cpld.None?
    ensures Inv(Next(s, WideKick(segment))) <==> !Busy(s.dev)
  {
    NextKeepsLocks(s, WideKick(segment));
  }

  lemma AcquireKeeps(s: State, i: int)
    requires Inv(s) && 0 <= i < |s.threads| && s.threads[i].Waiting?
    requires OrderlyAction(s, Step(i))
    ensures Inv(StepThread(s, i))
  {
    StepKeepsLocks(s, i);
    hide SameBut, Locks;
  }

  lemma KickKnows(d: Device, segment: int, issued: Option<Op>, book: Memory, t: Thread)
    requires t.Working? && Knows(d, issued, book, t)
    ensures Knows(KickSlice(d, segment), issued, book, t)
  {
  }

  lemma KickKeeps(s: State, i: int)
    requires Inv(s) && 0 <= i < |s.threads| && s.threads[i].Kicking?
    ensures Inv(StepThread(s, i))
  {
    StepKeepsLocks(s, i);
    if s.cpu.Some? {
      KickKnows(s.dev, s.threads[i].segment, s.issued, s.book, s.threads[s.cpu.value]);
    }
    hide SameBut, Knows;
  }

  lemma AdvanceKnows(d: Device, issued: Option<Op>, book: Memory, t: Thread)
    requires t.Working? && Knows(d, issued, book, t)
    ensures t.sub == 5 && t.stage != Release ==>
      Knows(d, issued, book, Advance(t)) && HandedOver(Advance(t)) == HandedOver(t)
    ensures t.sub == 0 && t.stage != Release ==> Knows(d, issued, book, t.(sub := 1))
  {
  }

  lemma LockKeeps(s: State, i: int)
    requires Inv(s) && 0 <= i < |s.threads| && s.threads[i].Working?
    requires s.threads[i].stage == Release || s.threads[i].sub == 0 || s.threads[i].sub == 5
    ensures Inv(StepThread(s, i))
  {
    StepKeepsLocks(s, i);
    AdvanceKnows(s.dev, s.issued, s.book, s.threads[i]);
    AdvanceWorks(s.threads[i]);
    if s.threads[i].stage == Release {
      ReleaseTells(s, i);
    }
    hide Knows, Advance, Matches;
  }

  lemma ReleaseTells(s: State, i: int)
    requires Inv(s) && 0 <= i < |s.threads| && s.threads[i].Working? && s.threads[i].stage == Release
    ensures Pending(s.dev, s.issued) ==> s.dev.addr == s.issued.value.off && s.dev.dat == s.issued.value.val
  {
  }

  lemma SliceKnows(d: Device, issued: Option<Op>, book: Memory, t: Thread, settled: Memory)
    requires t.Working? && t.stage != Release && 1 <= t.sub <= 4 && Knows(d, issued, book, t) && Matches(d, issued)
    ensures var now := t.stage == SetCsr && t.sub == 2;
      Knows(WriteSlice(d, t.op, t.stage, t.sub - 1), if now then Some(t.op) else issued, if now then settled else book,
            t.(sub := t.sub + 1, acc := ReadSlice(d, t.acc, t.stage, t.sub - 1)))
  {
    hide AllSpared;
  }

  lemma SliceMatches(d: Device, issued: Option<Op>, book: Memory, t: Thread)
    requires t.Working? && t.stage != Release && 1 <= t.sub <= 4 && Knows(d, issued, book, t) && Matches(d, issued)
    ensures
      var r := WriteSlice(d, t.op, t.stage, t.sub - 1);
      var now := if t.stage == SetCsr && t.sub == 2 then Some(t.op) else issued;
      && Matches(r, now) && r.mem == d.mem
      && (t.stage == SetCsr && t.sub == 2 ==> Busy(r))
      && (!(t.stage == SetCsr && t.sub == 2) ==> Busy(r) == Busy(d))
  {
    hide AllSpared;
  }

  /** The command that t hands over withdraws the outstanding one, whose value is in the memory anyway. */
  lemma WithdrawnIsSpared(d: Device, issued: Option<Op>, book: Memory, t: Thread)
    requires t.Working? && t.stage == SetCsr && t.sub == 2 && Knows(d, issued, book, t)
    requires SameBut(d.mem, book,
                     (if t.op.WriteOp? then {t.op.off} else {}) + if Pending(d, issued) then {issued.value.off} else {})
    ensures SameBut(d.mem, if Busy(d) then Record(book, issued) else book, if t.op.WriteOp? then {t.op.off} else {})
  {
    if Pending(d, issued) {
      assert Passing(issued.value.off, t.op.off, 0) == issued.value.off;
      assert Spared(d.mem, issued.value.off, issued.value.val, t.op);
    }
  }

  lemma SliceKeeps(s: State, i: int)
    requires Inv(s) && 0 <= i < |s.threads| && s.threads[i].Working?
    requires s.threads[i].stage != Release && 1 <= s.threads[i].sub <= 4
    ensures Inv(StepThread(s, i))
  {
    StepKeepsLocks(s, i);
    var t := s.threads[i];
    SliceKnows(s.dev, s.issued, s.book, t, Effective(s));
    SliceMatches(s.dev, s.issued, s.book, t);
    if t.stage == SetCsr && t.sub == 2 {
      WithdrawnIsSpared(s.dev, s.issued, s.book, t);
    }
    hide Knows, Matches, Locks, SameBut, WriteSlice, ReadSlice;
  }

  lemma IdleStays(s: State, i: int)
    requires 0 <= i < |s.threads| && s.threads[i].Idle?
    ensures StepThread(s, i) == s
  {
  }

  lemma StepKeeps(s: State, i: int)
    requires Inv(s) && 0 <= i < |s.threads|
    requires OrderlyAction(s, Step(i))
    ensures Inv(StepThread(s, i))
  {
    hide Told, StepThread, OrderlyAction;
    var t := s.threads[i];
    if t.Idle? {
      IdleStays(s, i);
    } else if t.Waiting? {
      AcquireKeeps(s, i);
    } else if t.Kicking? {
      KickKeeps(s, i);
    } else if t.stage == Release || t.sub == 0 || t.sub == 5 {
      LockKeeps(s, i);
    } else {
      SliceKeeps(s, i);
    }
  }

  /** Every orderly action keeps the invariant. */
  lemma NextKeeps(s: State, a: Action)
    requires Inv(s) && OrderlyAction(s, a)
    ensures Inv(Next(s, a))
  {
    hide Inv, StepThread;
    match a
    case Call(_, _) => CallKeeps(s, a);
    case Kick(_, _) => CallKeeps(s, a);
    case Step(i) =>
      if 0 <= i < |s.threads| {
        StepKeeps(s, i);
      }
    case WideKick(segment) =>
      if s.cpld.None? {
        WideKickExactly(s, segment);
      }
    case Answer => AnswerKeeps(s, a);
    case Notice => AnswerKeeps(s, a);
  }

  // Whole runs.

  /** The run takes only orderly actions. */
  predicate Orderly(s: State, actions: seq<Action>)
    decreases |actions|
  {
    actions == [] ||
    (Orderly(s, actions[..|actions| - 1]) && OrderlyAction(Exec(s, actions[..|actions| - 1]), actions[|actions| - 1]))
  }

  /** The calls of a run, in the order in which they finish. */
  function History(s: State, actions: seq<Action>): seq<Finished>
    decreases |actions|
  {
    if actions == [] then []
    else
      var before := actions[..|actions| - 1];
      History(s, before) + FinishedBy(Exec(s, before), actions[|actions| - 1])
  }

  function Apply(m: Memory, op: Op): Memory {
    if op.WriteOp? then m[op.off := op.val] else m
  }

  /** A plain memory after the calls of a history, one at a time. */
  function Replay(m: Memory, h: seq<Finished>): Memory
    decreases |h|
  {
    if h == [] then m else Apply(Replay(m, h[..|h| - 1]), h[|h| - 1].op)
  }

  /** Each read that did not give up returned what a plain memory would have returned in its place. */
  predicate Sequential(m: Memory, h: seq<Finished>) {
    forall k :: 0 <= k < |h| && h[k].op.ReadOp? && !h[k].late ==> h[k].result == Lookup(Replay(m, h[..k]), h[k].op.off)
  }

  /** The memory after the finished calls and, if it has handed its command over, the call in progress. */
  function Expected(s: State, plain: Memory): Memory {
    if s.cpu.Some? && 0 <= s.cpu.value < |s.threads| && HandedOver(s.threads[s.cpu.value])
    then Apply(plain, s.threads[s.cpu.value].op) else plain
  }

  lemma OthersTrack(s: State, a: Action, plain: Memory)
    requires Inv(s) && !a.Step? && Gentle(s, a)
    requires Effective(s) == Expected(s, plain)
    ensures Effective(Next(s, a)) == Expected(Next(s, a), plain)
  {
  }

  lemma SliceTracks(s: State, i: int, plain: Memory)
    requires Inv(s) && 0 <= i < |s.threads| && s.threads[i].Working?
    requires s.threads[i].stage != Release && 1 <= s.threads[i].sub <= 4
    requires Effective(s) == Expected(s, plain)
    ensures Effective(StepThread(s, i)) == Expected(StepThread(s, i), plain)
  {
    var t := s.threads[i];
    assert s.cpu == Some(i) && (t.stage == SetCsr && t.sub == 2 ==> Expected(s, plain) == plain);
    hide Locks, SameBut, Matches;
  }

  lemma KickTracks(s: State, i: int, plain: Memory)
    requires Inv(s) && 0 <= i < |s.threads| && s.threads[i].Kicking?
    requires Effective(s) == Expected(s, plain)
    ensures Effective(StepThread(s, i)) == Expected(StepThread(s, i), plain)
  {
    hide Told;
  }

  lemma LockTracks(s: State, i: int, plain: Memory)
    requires Inv(s) && 0 <= i < |s.threads| && !s.threads[i].Kicking?
    requires s.threads[i].Working? ==> s.threads[i].stage == Release || s.threads[i].sub == 0 || s.threads[i].sub == 5
    requires Effective(s) == Expected(s, plain)
    ensures var f := FinishedBy(s, Step(i));
      Effective(StepThread(s, i)) == Expected(StepThread(s, i), if f == [] then plain else Apply(plain, f[0].op))
  {
    var t := s.threads[i];
    if t.Working? && t.stage != Release && t.sub == 5 {
      AdvanceHandsOver(s, t);
      AdvanceWorks(t);
    }
    hide Advance, Told;
  }

  lemma StepTracks(s: State, i: int, plain: Memory)
    requires Inv(s) && 0 <= i < |s.threads|
    requires Effective(s) == Expected(s, plain)
    ensures var f := FinishedBy(s, Step(i));
      Effective(StepThread(s, i)) == Expected(StepThread(s, i), if f == [] then plain else Apply(plain, f[0].op))
  {
    hide Effective, Expected, StepThread, Told;
    var t := s.threads[i];
    if t.Kicking? {
      KickTracks(s, i, plain);
    } else if t.Working? && t.stage != Release && 1 <= t.sub <= 4 {
      SliceTracks(s, i, plain);
    } else {
      LockTracks(s, i, plain);
    }
  }

  lemma AdvanceHandsOver(s: State, t: Thread)
    requires t.Working? && t.stage != Release && t.sub == 5
    ensures HandedOver(Advance(t)) == HandedOver(t) && Advance(t).op == t.op
  {
  }

  /** A finished read that did not give up returns what the memory of the finished calls holds. */
  lemma ReadReturnsExpected(s: State, a: Action, plain: Memory)
    requires Inv(s) && Effective(s) == Expected(s, plain)
    ensures var f := FinishedBy(s, a);
      f != [] && f[0].op.ReadOp? && !f[0].late ==> f[0].result == Lookup(plain, f[0].op.off)
  {
  }

  /** The mailbox implements one register memory for any number of threads: in every orderly run, with kicks
      anywhere and the CPU answering at any time or too late, each read that did not time out returns the
      value that the calls finished before it, taken one after the other, left at its offset. */
  lemma {:induction false} MailboxIsSequential(s: State, actions: seq<Action>)
    requires Inv(s) && s.cpu.None? && Orderly(s, actions)
    ensures Inv(Exec(s, actions))
    ensures Effective(Exec(s, actions)) == Expected(Exec(s, actions), Replay(Effective(s), History(s, actions)))
    ensures Sequential(Effective(s), History(s, actions))
    decreases |actions|
  {
    hide Inv, Effective, Next, FinishedBy, Lookup;
    if actions != [] {
      hide Expected;
      var earlier, a := actions[..|actions| - 1], actions[|actions| - 1];
      MailboxIsSequential(s, earlier);
      var before, h := Exec(s, earlier), History(s, earlier);
      NextKeeps(before, a);
      NextTracks(before, a, Replay(Effective(s), h));
      ReadReturnsExpected(before, a, Replay(Effective(s), h));
      FinishedByIsShort(before, a);
      HistoryGrows(Effective(s), h, FinishedBy(before, a));
    }
  }

  lemma FinishedByIsShort(s: State, a: Action)
    ensures |FinishedBy(s, a)| <= 1
  {
  }

  lemma HistoryGrows(m: Memory, h: seq<Finished>, f: seq<Finished>)
    requires Sequential(m, h) && |f| <= 1
    requires f != [] && f[0].op.ReadOp? && !f[0].late ==> f[0].result == Lookup(Replay(m, h), f[0].op.off)
    ensures Sequential(m, h + f)
    ensures Replay(m, h + f) == if f == [] then Replay(m, h) else Apply(Replay(m, h), f[0].op)
  {
    hide Lookup;
    if f == [] {
      assert h + f == h;
    } else {
      assert (h + f)[..|h|] == h;
      forall k | 0 <= k < |h| ensures (h + f)[..k] == h[..k] {
      }
    }
  }

  lemma NextTracks(s: State, a: Action, plain: Memory)
    requires Inv(s) && OrderlyAction(s, a)
    requires Effective(s) == Expected(s, plain)
    ensures var f := FinishedBy(s, a);
      Effective(Next(s, a)) == Expected(Next(s, a), if f == [] then plain else Apply(plain, f[0].op))
  {
    hide Inv, Effective, Expected, StepThread;
    if a.Step? && 0 <= a.who < |s.threads| {
      StepTracks(s, a.who, plain);
    } else if !a.Step? {
      OthersTrack(s, a, plain);
    }
  }

  /** Whenever a write that timed out is still outstanding and another call for a different offset begins,
      the CPU answering just after that call has written AVR_ADDR stores the old value at the new
      call's offset. */
  lemma LateCommandHitsNextCall(s: State, i: int, old0: Op)
    requires Inv(s) && Busy(s.dev) && s.issued == Some(old0) && old0.WriteOp? && s.cpu.None? && s.cpld.None?
    requires 0 <= i < |s.threads| && s.threads[i].Waiting? && s.threads[i].op.off != old0.off
    ensures var s6 := Exec(s, [Step(i), Step(i), Step(i), Step(i), Step(i), Step(i), Answer]);
      && !Busy(s6.dev)
      && Lookup(s6.dev.mem, s.threads[i].op.off) == old0.val
      && s6.dev.mem == s.dev.mem[s.threads[i].op.off := old0.val]
      && s6.book == s.book[old0.off := old0.val]
  {
    var op := s.threads[i].op;
    ExecSeven(s, Step(i), Answer);
    hide Inv, Exec;
    var s1 := Next(s, Step(i));
    var s2 := Next(s1, Step(i));
    assert s2.dev == s.dev && s2.threads[i] == Working(op, SetAddr, 1, op.off, 0, false);
    var s3 := Next(s2, Step(i));
    var s4 := Next(s3, Step(i));
    assert Agree(s4.dev.addr, op.off, 2) && s4.threads[i] == Working(op, SetAddr, 3, op.off, 0, false);
    var s5 := Next(s4, Step(i));
    var s6 := Next(s5, Step(i));
    assert s6.dev == s.dev.(addr := op.off);
  }

  lemma ExecSeven(s: State, a: Action, b: Action)
    ensures Exec(s, [a, a, a, a, a, a, b]) == Next(Next(Next(Next(Next(Next(Next(s, a), a), a), a), a), a), b)
  {
    hide Next;
    assert [a, a, a, a, a, a, b][..6] == [a, a, a, a, a, a];
    assert [a, a, a, a, a, a][..5] == [a, a, a, a, a];
    assert [a, a, a, a, a][..4] == [a, a, a, a];
    assert [a, a, a, a][..3] == [a, a, a];
    assert [a, a, a][..2] == [a, a];
    assert [a, a][..1] == [a];
    assert [a][..0] == [];
    assert Exec(s, [a]) == Next(s, a);
    assert Exec(s, [a, a]) == Next(Next(s, a), a);
    assert Exec(s, [a, a, a]) == Next(Next(Next(s, a), a), a);
    assert Exec(s, [a, a, a, a]) == Next(Next(Next(Next(s, a), a), a), a);
    assert Exec(s, [a, a, a, a, a]) == Next(Next(Next(Next(Next(s, a), a), a), a), a);
  }

  // cpu_wait is bounded, and the situation of LateCommandHitsNextCall does arise.

  /** n moves of one thread with nothing else happening. */
  function Run(s: State, i: int, n: nat): State {
    if n == 0 then s else Next(Run(s, i, n - 1), Step(i))
  }

  lemma {:induction false} RunAdds(s: State, i: int, m: nat, n: nat)
    ensures Run(s, i, m + n) == Run(Run(s, i, m), i, n)
  {
    hide Next;
    if n > 0 {
      RunAdds(s, i, m, n - 1);
    }
  }

  function FullWrite(d: Device, op: Op, stage: Stage): Device {
    match stage
    case SetAddr => d.(addr := op.off)
    case SetDat => if op.WriteOp? then d.(dat := op.val) else d
    case SetCsr => d.(csr := Command(op))
    case _ => d
  }

  function FullRead(d: Device, acc: Byte, stage: Stage): Byte {
    match stage
    case Poll => d.csr
    case Fetch => d.host
    case _ => acc
  }

  function WrittenSlices(d: Device, op: Op, stage: Stage, n: nat): Device {
    if n == 0 then d else WriteSlice(WrittenSlices(d, op, stage, n - 1), op, stage, n - 1)
  }

  function ReadSlices(d: Device, acc: Byte, op: Op, stage: Stage, n: nat): Byte {
    if n == 0 then acc
    else ReadSlice(WrittenSlices(d, op, stage, n - 1), ReadSlices(d, acc, op, stage, n - 1), stage, n - 1)
  }

  /** Four slices make one byte access. */
  lemma SlicesMakeAccess(d: Device, acc: Byte, op: Op, stage: Stage)
    ensures WrittenSlices(d, op, stage, 4) == FullWrite(d, op, stage)
    ensures ReadSlices(d, acc, op, stage, 4) == FullRead(d, acc, stage)
  {
    var d1 := WrittenSlices(d, op, stage, 1);
    assert d1 == WriteSlice(WrittenSlices(d, op, stage, 0), op, stage, 0);
    var d2 := WrittenSlices(d, op, stage, 2);
    assert d2 == WriteSlice(d1, op, stage, 1);
    var a1 := ReadSlices(d, acc, op, stage, 1);
    assert a1 == ReadSlice(d, ReadSlices(d, acc, op, stage, 0), stage, 0);
    var a2 := ReadSlices(d, acc, op, stage, 2);
    assert a2 == ReadSlice(d1, a1, stage, 1);
  }

  /** Inside an access of thread i after n slices. */
  function Amid(s: State, i: int, n: nat): State
    requires 0 <= i < |s.threads| && s.threads[i].Working?
  {
    var t := s.threads[i];
    s.(dev := WrittenSlices(s.dev, t.op, t.stage, n),
       issued := if t.stage == SetCsr && n >= 2 then Some(t.op) else s.issued,
       book := if t.stage == SetCsr && n >= 2 then Effective(s) else s.book,
       cpld := Some(i),
       threads := s.threads[i := t.(sub := n + 1, acc := ReadSlices(s.dev, t.acc, t.op, t.stage, n))])
  }

  lemma FirstSliceKeepsBusy(d: Device, op: Op)
    ensures Busy(WrittenSlices(d, op, SetCsr, 1)) == Busy(d)
  {
    assert WrittenSlices(d, op, SetCsr, 0) == d;
  }

  lemma AmidSteps(s: State, i: int, n: nat)
    requires 0 <= i < |s.threads| && s.threads[i].Working? && s.threads[i].stage != Release && n < 4
    ensures Next(Amid(s, i, n), Step(i)) == Amid(s, i, n + 1)
  {
    FirstSliceKeepsBusy(s.dev, s.threads[i].op);
    hide WriteSlice, ReadSlice;
    var r := Next(Amid(s, i, n), Step(i));
    assert r.threads == Amid(s, i, n + 1).threads;
  }

  /** The state after thread i, alone, has done one whole access. */
  function Accessed(s: State, i: int): State
    requires 0 <= i < |s.threads| && s.threads[i].Working?
  {
    var t := s.threads[i];
    s.(dev := FullWrite(s.dev, t.op, t.stage),
       issued := if t.stage == SetCsr then Some(t.op) else s.issued,
       book := if t.stage == SetCsr then Effective(s) else s.book,
       threads := s.threads[i := Advance(t.(acc := FullRead(s.dev, t.acc, t.stage), sub := 5))])
  }

  lemma AccessTakesSix(s: State, i: int)
    requires 0 <= i < |s.threads| && s.threads[i].Working? && s.threads[i].sub == 0
    requires s.threads[i].stage != Release && s.cpld.None?
    ensures Run(s, i, 6) == Accessed(s, i)
  {
    var t := s.threads[i];
    assert Run(s, i, 1) == Amid(s, i, 0);
    SlicesMakeAccess(s.dev, t.acc, t.op, t.stage);
    LastStep(s, i);
    hide Advance, Next, Amid, Accessed;
    AmidSteps(s, i, 0);
    assert Run(s, i, 2) == Amid(s, i, 1);
    AmidSteps(s, i, 1);
    assert Run(s, i, 3) == Amid(s, i, 2);
    AmidSteps(s, i, 2);
    assert Run(s, i, 4) == Amid(s, i, 3);
    AmidSteps(s, i, 3);
    assert Run(s, i, 5) == Amid(s, i, 4);
  }

  lemma LastStep(s: State, i: int)
    requires 0 <= i < |s.threads| && s.threads[i].Working? && s.threads[i].sub == 0
    requires s.threads[i].stage != Release && s.cpld.None?
    ensures Next(Amid(s, i, 4), Step(i)) == Accessed(s, i)
  {
    hide Advance, WriteSlice, ReadSlice, FullWrite, FullRead;
    var t := s.threads[i];
    SlicesMakeAccess(s.dev, t.acc, t.op, t.stage);
    assert Next(Amid(s, i, 4), Step(i)).threads == Accessed(s, i).threads;
  }

  /** Polling a CPU that does not answer: the loop of cpu_wait gives up when it has read CSR
      MAX_POLLS times, and changes nothing. */
  lemma {:induction false} PollsGiveUp(s: State, i: int)
    requires 0 <= i < |s.threads| && s.threads[i].Working? && s.threads[i].sub == 0 && s.threads[i].stage == Poll
    requires s.cpld.None? && Busy(s.dev) && 0 <= s.threads[i].polls < MAX_POLLS && !s.threads[i].late
    ensures var t := s.threads[i];
      Run(s, i, 6 * (MAX_POLLS - t.polls)) ==
        s.(threads := s.threads[i :=
          t.(acc := s.dev.csr, polls := MAX_POLLS - 1, stage := AfterWait(t.op), late := true)])
    decreases MAX_POLLS - s.threads[i].polls
  {
    hide Run;
    var t := s.threads[i];
    AccessTakesSix(s, i);
    var s1 := Accessed(s, i);
    if t.polls + 1 < MAX_POLLS {
      assert s1 == s.(threads := s.threads[i := t.(acc := s.dev.csr, polls := t.polls + 1)]);
      PollsGiveUp(s1, i);
      RunAdds(s, i, 6, 6 * (MAX_POLLS - t.polls - 1));
      assert s1.threads[i := s1.threads[i].(polls := MAX_POLLS - 1, stage := AfterWait(t.op), late := true)]
          == s.threads[i := t.(acc := s.dev.csr, polls := MAX_POLLS - 1, stage := AfterWait(t.op), late := true)];
    }
  }

  /** A lone cpu_write up to the first poll: 19 moves put its arguments and command in the mailbox. */
  lemma WriteHandsOver(s: State, i: int, op: Op)
    requires s.cpu.None? && s.cpld.None? && 0 <= i < |s.threads| && s.threads[i] == Waiting(op) && op.WriteOp?
    ensures Run(s, i, 19) ==
              s.(cpu := Some(i), dev := s.dev.(addr := op.off, dat := op.val, csr := Command(op)), issued := Some(op),
                 book := Effective(s), threads := s.threads[i := Working(op, Poll, 0, op.off, 0, false)])
  {
    var s1 := s.(cpu := Some(i), threads := s.threads[i := Working(op, SetAddr, 0, op.off, 0, false)]);
    var s2 := s1.(dev := s1.dev.(addr := op.off), threads := s.threads[i := Working(op, SetDat, 0, op.off, 0, false)]);
    var s3 := s2.(dev := s2.dev.(dat := op.val), threads := s.threads[i := Working(op, SetCsr, 0, op.off, 0, false)]);
    var s4 := s3.(dev := s3.dev.(csr := Command(op)), issued := Some(op), book := Effective(s3),
                  threads := s.threads[i := Working(op, Poll, 0, op.off, 0, false)]);
    assert Effective(s3) == Effective(s);
    assert Run(s, i, 0) == s;
    assert Run(s, i, 1) == s1;
    hide Effective;
    assert Accessed(s1, i).threads == s2.threads;
    assert Accessed(s2, i).threads == s3.threads;
    assert Accessed(s3, i).threads == s4.threads;
    hide Run, Next;
    AccessTakesSix(s1, i);
    AccessTakesSix(s2, i);
    AccessTakesSix(s3, i);
    RunAdds(s, i, 1, 6);
    RunAdds(s, i, 7, 6);
    RunAdds(s, i, 13, 6);
  }

  lemma CallWaits(s: State, i: int, op: Op)
    requires 0 <= i < |s.threads| && s.threads[i].Idle?
    ensures Next(s, Call(i, op)) == s.(threads := s.threads[i := Waiting(op)])
  {
  }

  lemma ReleaseEnds(s: State, i: int)
    requires 0 <= i < |s.threads| && s.threads[i].Working? && s.threads[i].stage == Release
    ensures Next(s, Step(i)) == s.(cpu := None, threads := s.threads[i := Idle])
    ensures FinishedBy(s, Step(i)) == [Finished(s.threads[i].op, s.threads[i].acc, s.threads[i].late)]
    ensures OrderlyAction(s, Step(i))
  {
  }

  /** A cpu_write that the CPU ignores ends by itself after MAX_POLLS reads of CSR, reports the
      timeout and leaves its command outstanding: the state in which the next call is at risk. */
  lemma IgnoredWriteTimesOut(s: State, i: int, op: Op)
    requires Inv(s) && s.cpu.None? && s.cpld.None? && !Busy(s.dev)
    requires 0 <= i < |s.threads| && s.threads[i].Idle? && op.WriteOp?
    ensures var before := Run(Next(s, Call(i, op)), i, 19 + 6 * 10000);
      var r := Next(before, Step(i));
      && FinishedBy(before, Step(i)) == [Finished(op, Command(op), true)]
      && Inv(r) && r.cpu.None? && r.cpld.None? && r.threads == s.threads
      && Busy(r.dev) && r.issued == Some(op) && r.book == s.book
  {
    hide Run, Inv, Next, FinishedBy;
    var s0 := Next(s, Call(i, op));
    CallWaits(s, i, op);
    WriteHandsOver(s0, i, op);
    var s4 := Run(s0, i, 19);
    PollsGiveUp(s4, i);
    RunAdds(s0, i, 19, 6 * MAX_POLLS);
    var before := Run(s0, i, 19 + 6 * 10000);
    assert before.threads[i] == Working(op, Release, 0, Command(op), MAX_POLLS - 1, true);
    ReleaseEnds(before, i);
    assert before.threads[i := Idle] == s.threads;
    OutstandingIsInvariant(s, op);
  }

  lemma OutstandingIsInvariant(s: State, op: Op)
    requires Inv(s) && s.cpu.None? && !Busy(s.dev) && op.WriteOp?
    ensures Inv(s.(dev := s.dev.(addr := op.off, dat := op.val, csr := Command(op)), issued := Some(op)))
  {
  }

  /** A pin kick that finds the CPLD lock taken does nothing. */
  lemma KickGivesUp(s: State, i: int, segment: int)
    requires s.cpld.Some?
    ensures Next(s, Kick(i, segment)) == s
  {
  }

  // Explicit runs: what an orderly call does, and what a disorderly one breaks.

  function Steps(i: int, n: nat): seq<Action> {
    if n == 0 then [] else Steps(i, n - 1) + [Step(i)]
  }

  lemma {:induction false} ExecAppends(s: State, a: seq<Action>, b: seq<Action>)
    ensures Exec(s, a + b) == Exec(Exec(s, a), b)
    ensures History(s, a + b) == History(s, a) + History(Exec(s, a), b)
    ensures Orderly(s, a + b) <==> Orderly(s, a) && Orderly(Exec(s, a), b)
    decreases |b|
  {
    hide Next, FinishedBy, OrderlyAction;
    if b == [] {
      assert a + b == a;
    } else {
      ExecAppends(s, a, b[..|b| - 1]);
      assert (a + b)[..|a + b| - 1] == a + b[..|b| - 1];
    }
  }

  lemma ExecOne(s: State, a: Action)
    ensures Exec(s, [a]) == Next(s, a) && History(s, [a]) == FinishedBy(s, a)
    ensures Orderly(s, [a]) <==> OrderlyAction(s, a)
  {
    hide Next, FinishedBy, OrderlyAction;
    assert [a][..0] == [] && Orderly(s, []);
    assert Exec(s, []) == s && History(s, []) == [];
  }

  lemma {:induction false} StepsRun(s: State, i: int, n: nat)
    ensures |Steps(i, n)| == n && Exec(s, Steps(i, n)) == Run(s, i, n)
  {
    hide Next;
    if n > 0 {
      StepsRun(s, i, n - 1);
      assert Steps(i, n)[..n - 1] == Steps(i, n - 1);
    }
  }

  lemma StepsGoOn(s: State, i: int, n: nat)
    requires n > 0
    ensures History(s, Steps(i, n)) == History(s, Steps(i, n - 1)) + FinishedBy(Run(s, i, n - 1), Step(i))
    ensures Orderly(s, Steps(i, n)) <==> Orderly(s, Steps(i, n - 1)) && OrderlyAction(Run(s, i, n - 1), Step(i))
  {
    hide Next, FinishedBy, Run, Exec, History, Orderly, OrderlyAction;
    StepsRun(s, i, n - 1);
    ExecAppends(s, Steps(i, n - 1), [Step(i)]);
    ExecOne(Run(s, i, n - 1), Step(i));
  }

  lemma NoSteps(s: State, i: int)
    ensures History(s, Steps(i, 0)) == [] && Orderly(s, Steps(i, 0))
  {
    hide Next, FinishedBy, Exec;
  }

  /** The thread is inside its call and not about to leave it. */
  predicate Inside(s: State, i: int) {
    0 <= i < |s.threads| && s.threads[i].Working? && s.threads[i].stage != Release
  }

  lemma InsideIsQuiet(s: State, i: int)
    requires Inside(s, i)
    ensures FinishedBy(s, Step(i)) == [] && OrderlyAction(s, Step(i))
  {
  }

  /** Steps inside a call finish none and begin none. */
  lemma {:induction false} QuietSteps(s: State, i: int, n: nat)
    requires forall k: nat | k < n :: Inside(Run(s, i, k), i)
    ensures History(s, Steps(i, n)) == [] && Orderly(s, Steps(i, n))
  {
    hide Run, FinishedBy, History, Steps, Exec, Next, Inside, Orderly, OrderlyAction;
    if n == 0 {
      NoSteps(s, i);
    } else {
      QuietSteps(s, i, n - 1);
      InsideIsQuiet(Run(s, i, n - 1), i);
      StepsGoOn(s, i, n);
    }
  }

  lemma {:induction false} AmidRuns(s: State, i: int, n: nat)
    requires 0 <= i < |s.threads| && s.threads[i].Working? && s.threads[i].sub == 0
    requires s.threads[i].stage != Release && s.cpld.None? && n <= 4
    ensures Run(s, i, n + 1) == Amid(s, i, n)
  {
    if n == 0 {
      assert Run(s, i, 0) == s;
    } else {
      hide Next, Amid;
      AmidRuns(s, i, n - 1);
      AmidSteps(s, i, n - 1);
    }
  }

  /** A whole undisturbed access finishes no call and begins none. */
  lemma AccessIsQuiet(s: State, i: int)
    requires 0 <= i < |s.threads| && s.threads[i].Working? && s.threads[i].sub == 0
    requires s.threads[i].stage != Release && s.cpld.None?
    ensures Exec(s, Steps(i, 6)) == Accessed(s, i) && History(s, Steps(i, 6)) == [] && Orderly(s, Steps(i, 6))
  {
    hide Next, Accessed, WrittenSlices, ReadSlices;
    forall k: nat | k < 6
      ensures Inside(Run(s, i, k), i)
    {
      if k > 0 {
        AmidRuns(s, i, k - 1);
      }
    }
    hide Inside, Run, Orderly;
    AccessTakesSix(s, i);
    StepsRun(s, i, 6);
    QuietSteps(s, i, 6);
  }

  /** The registers when a call starts to poll. */
  function Handed(d: Device, op: Op): Device {
    d.(addr := op.off, dat := if op.WriteOp? then op.val else d.dat, csr := Command(op))
  }

  /** The moves of a call from AVR_ADDR written to the first poll. */
  function Setting(i: int, op: Op): seq<Action> {
    if op.WriteOp? then Steps(i, 6) + Steps(i, 6) else Steps(i, 6)
  }

  /** The moves of a call up to its first poll. */
  function HandOver(i: int, op: Op): seq<Action> {
    [Step(i)] + (Steps(i, 6) + Setting(i, op))
  }

  /** A call that has just got the CPU lock and then writes its registers. */
  function Polling(s: State, i: int, op: Op): State
    requires 0 <= i < |s.threads|
  {
    s.(cpu := Some(i), dev := Handed(s.dev, op), issued := Some(op), book := Effective(s),
       threads := s.threads[i := Working(op, Poll, 0, op.off, 0, false)])
  }

  function Begun(s: State, i: int, op: Op, stage: Stage): State
    requires 0 <= i < |s.threads|
  {
    s.(cpu := Some(i), threads := s.threads[i := Working(op, stage, 0, op.off, 0, false)])
  }

  lemma AccessStages(s: State, i: int, op: Op)
    requires 0 <= i < |s.threads|
    ensures Accessed(Begun(s, i, op, SetAddr), i)
         == Begun(s.(dev := s.dev.(addr := op.off)), i, op, if op.WriteOp? then SetDat else SetCsr)
    ensures op.WriteOp? ==>
      Accessed(Begun(s, i, op, SetDat), i) == Begun(s.(dev := s.dev.(dat := op.val)), i, op, SetCsr)
    ensures Accessed(Begun(s, i, op, SetCsr), i)
         == Begun(s.(dev := s.dev.(csr := Command(op)), issued := Some(op), book := Effective(s)), i, op, Poll)
  {
    hide Command;
    assert Accessed(Begun(s, i, op, SetAddr), i).threads
        == s.threads[i := Working(op, if op.WriteOp? then SetDat else SetCsr, 0, op.off, 0, false)];
    assert Accessed(Begun(s, i, op, SetDat), i).threads == s.threads[i := Working(op, SetCsr, 0, op.off, 0, false)];
    assert Accessed(Begun(s, i, op, SetCsr), i).threads == s.threads[i := Working(op, Poll, 0, op.off, 0, false)];
  }

  lemma CallBegins(s: State, i: int, op: Op)
    requires s.cpu.None? && 0 <= i < |s.threads| && s.threads[i] == Waiting(op)
    ensures Exec(s, [Step(i)]) == Begun(s, i, op, SetAddr) && History(s, [Step(i)]) == []
    ensures Orderly(s, [Step(i)]) <==> MayBegin(s.dev, s.issued, op)
  {
    ExecOne(s, Step(i));
  }

  /** The stage after SetAddr. */
  function Second(op: Op): Stage {
    if op.WriteOp? then SetDat else SetCsr
  }

  lemma SettingRuns(s: State, i: int, op: Op)
    requires s.cpld.None? && 0 <= i < |s.threads| && s.dev.addr == op.off
    ensures var b := Begun(s, i, op, Second(op));
      Exec(b, Setting(i, op)) == Polling(s, i, op) && History(b, Setting(i, op)) == [] && Orderly(b, Setting(i, op))
  {
    hide Exec, History, Orderly, Steps, Accessed, Command;
    AccessStages(s, i, op);
    AccessIsQuiet(Begun(s, i, op, Second(op)), i);
    if op.WriteOp? {
      var s3 := s.(dev := s.dev.(dat := op.val));
      AccessStages(s3, i, op);
      AccessIsQuiet(Begun(s3, i, op, SetCsr), i);
      ExecAppends(Begun(s, i, op, SetDat), Steps(i, 6), Steps(i, 6));
    }
  }

  /** A lone call whatever is outstanding: its command replaces it. */
  lemma CallHandsOver(s: State, i: int, op: Op)
    requires s.cpu.None? && s.cpld.None? && 0 <= i < |s.threads| && s.threads[i] == Waiting(op)
    ensures Exec(s, HandOver(i, op)) == Polling(s, i, op) && History(s, HandOver(i, op)) == []
  {
    hide Exec, History, Orderly, Steps, Accessed, Command, Setting;
    CallBegins(s, i, op);
    AccessStages(s, i, op);
    var b := Begun(s, i, op, SetAddr);
    AccessIsQuiet(b, i);
    SettingRuns(s.(dev := s.dev.(addr := op.off)), i, op);
    ExecAppends(b, Steps(i, 6), Setting(i, op));
    ExecAppends(s, [Step(i)], Steps(i, 6) + Setting(i, op));
  }

  /** The moves of a call from a poll that finds CSR clear to the end. */
  function Finish(i: int, op: Op): seq<Action> {
    (if op.ReadOp? then Steps(i, 6) + Steps(i, 6) else Steps(i, 6)) + [Step(i)]
  }

  function Left(s: State, i: int): State
    requires 0 <= i < |s.threads|
  {
    s.(cpu := None, threads := s.threads[i := Idle])
  }

  lemma PollEnds(s: State, i: int)
    requires 0 <= i < |s.threads| && s.threads[i].Working? && s.threads[i].stage == Poll && s.threads[i].sub == 0
    requires !Busy(s.dev)
    ensures var t := s.threads[i];
      Accessed(s, i) == s.(threads := s.threads[i := t.(stage := AfterWait(t.op), acc := s.dev.csr)])
  {
  }

  lemma FetchEnds(s: State, i: int)
    requires 0 <= i < |s.threads| && s.threads[i].Working? && s.threads[i].stage == Fetch && s.threads[i].sub == 0
    ensures Accessed(s, i) == s.(threads := s.threads[i := s.threads[i].(stage := Release, acc := s.dev.host)])
  {
  }

  /** A call that finds CSR clear at its next poll ends without a timeout, with what HOST_DAT holds. */
  lemma CallFinishes(s: State, i: int)
    requires s.cpld.None? && 0 <= i < |s.threads| && s.threads[i].Working? && !s.threads[i].late
    requires s.threads[i].stage == Poll && s.threads[i].sub == 0 && !Busy(s.dev)
    ensures var op := s.threads[i].op;
      && Exec(s, Finish(i, op)) == Left(s, i) && Orderly(s, Finish(i, op))
      && History(s, Finish(i, op)) == [Finished(op, if op.ReadOp? then s.dev.host else s.dev.csr, false)]
  {
    hide Exec, History, Orderly, Steps, Accessed, Next, FinishedBy;
    var op := s.threads[i].op;
    PollEnds(s, i);
    AccessIsQuiet(s, i);
    var s1 := Accessed(s, i);
    if op.ReadOp? {
      FetchEnds(s1, i);
      AccessIsQuiet(s1, i);
      ExecAppends(s, Steps(i, 6), Steps(i, 6));
      var s2 := Accessed(s1, i);
      ReleaseEnds(s2, i);
      ExecOne(s2, Step(i));
      ExecAppends(s, Steps(i, 6) + Steps(i, 6), [Step(i)]);
      assert s2.threads[i := Idle] == s.threads[i := Idle];
    } else {
      ReleaseEnds(s1, i);
      ExecOne(s1, Step(i));
      ExecAppends(s, Steps(i, 6), [Step(i)]);
      assert s1.threads[i := Idle] == s.threads[i := Idle];
    }
  }

  /** The rest of a lone call that the CPU answers at once, with AVR_ADDR written. */
  function Later(i: int, op: Op): seq<Action> {
    Setting(i, op) + [Answer] + Finish(i, op)
  }

  /** A lone call that the CPU answers at once. */
  function CallRun(i: int, op: Op): seq<Action> {
    [Step(i)] + (Steps(i, 6) + Later(i, op))
  }

  /** A call is over, alone, in time and with the effect it should have on the memory m. */
  ghost predicate Done(m: Memory, r: State, threads: seq<Thread>, h: seq<Finished>, op: Op) {
    && r.cpu.None? && r.cpld.None? && r.threads == threads && !Busy(r.dev)
    && r.dev.mem == Apply(m, op)
    && exists result :: h == [Finished(op, result, false)] && (op.ReadOp? ==> result == Lookup(m, op.off))
  }

  lemma LaterRuns(s: State, i: int, op: Op)
    requires s.cpld.None? && 0 <= i < |s.threads| && s.dev.addr == op.off
    ensures var b := Begun(s, i, op, Second(op));
      && Done(s.dev.mem, Exec(b, Later(i, op)), s.threads[i := Idle], History(b, Later(i, op)), op)
      && Orderly(b, Later(i, op))
  {
    hide Exec, History, Orderly, Setting, Finish;
    var b := Begun(s, i, op, Second(op));
    SettingRuns(s, i, op);
    var s1 := Polling(s, i, op);
    ExecOne(s1, Answer);
    var s2 := Next(s1, Answer);
    AnswerCarries(s1, op);
    ExecAppends(b, Setting(i, op), [Answer]);
    CallFinishes(s2, i);
    ExecAppends(b, Setting(i, op) + [Answer], Finish(i, op));
    assert s2.threads[i := Idle] == s.threads[i := Idle];
  }

  /** From any state with free locks, whatever is outstanding, such a call does to the CPU's memory just what it
      should; but what was outstanding is gone. */
  lemma CallRuns(s: State, i: int, op: Op)
    requires s.cpu.None? && s.cpld.None? && 0 <= i < |s.threads| && s.threads[i] == Waiting(op)
    ensures Done(s.dev.mem, Exec(s, CallRun(i, op)), s.threads[i := Idle], History(s, CallRun(i, op)), op)
    ensures Orderly(s, CallRun(i, op)) <==> MayBegin(s.dev, s.issued, op)
  {
    hide Exec, History, Orderly, Steps, Accessed, Later, Done;
    CallBegins(s, i, op);
    AccessStages(s, i, op);
    var b := Begun(s, i, op, SetAddr);
    AccessIsQuiet(b, i);
    var s2 := s.(dev := s.dev.(addr := op.off));
    LaterRuns(s2, i, op);
    ExecAppends(b, Steps(i, 6), Later(i, op));
    ExecAppends(s, [Step(i)], Steps(i, 6) + Later(i, op));
    assert History(s, CallRun(i, op)) == History(Begun(s2, i, op, Second(op)), Later(i, op));
  }

  lemma AnswerCarries(s: State, op: Op)
    requires s.dev == Handed(s.dev, op)
    ensures var r := Next(s, Answer);
      && r == s.(dev := r.dev, issued := None, book := r.book) && !Busy(r.dev)
      && FinishedBy(s, Answer) == [] && OrderlyAction(s, Answer)
      && r.dev.mem == Apply(s.dev.mem, op) && (op.ReadOp? ==> r.dev.host == Lookup(s.dev.mem, op.off))
  {
  }

  lemma TwoFinished(plain: Memory, f: Finished, g: Finished)
    requires g.op.ReadOp? && !g.late && g.result != Lookup(Apply(plain, f.op), g.op.off)
    ensures !Sequential(plain, [f, g])
  {
    var h := [f, g];
    assert h[..1] == [f] && [f][..0] == [];
    assert Replay(plain, []) == plain && Replay(plain, [f]) == Apply(plain, f.op);
    assert h[1] == g;
  }

  /** A read of an offset, answered at once. */
  function ReadBack(i: int, off: Byte): seq<Action> {
    [Call(i, ReadOp(off))] + CallRun(i, ReadOp(off))
  }

  lemma ReadBackRuns(s: State, i: int, off: Byte)
    requires s.cpu.None? && s.cpld.None? && 0 <= i < |s.threads| && s.threads[i].Idle? && !Busy(s.dev)
    ensures History(s, ReadBack(i, off)) == [Finished(ReadOp(off), Lookup(s.dev.mem, off), false)]
    ensures Orderly(s, ReadBack(i, off))
  {
    hide Exec, History, Orderly, CallRun, Lookup;
    var read := ReadOp(off);
    ExecOne(s, Call(i, read));
    CallWaits(s, i, read);
    CallRuns(Next(s, Call(i, read)), i, read);
    ExecAppends(s, [Call(i, read)], CallRun(i, read));
  }

  // When a call may begin.

  /** The run of a call from AVR_ADDR written on, and a read back of an offset that the call does not write:
      if the memory does not hold there what it should, the run tells. */
  lemma RestTells(s: State, i: int, op: Op, off: Byte, plain: Memory)
    requires s.cpld.None? && 0 <= i < |s.threads| && s.dev.addr == op.off
    requires (op.ReadOp? || op.off != off) && Lookup(s.dev.mem, off) != Lookup(plain, off)
    ensures var b := Begun(s, i, op, Second(op));
      var rest := Later(i, op) + ReadBack(i, off);
      !Sequential(plain, History(b, rest)) && Orderly(b, rest)
  {
    hide Exec, History, Orderly, Later, ReadBack, Lookup, Sequential;
    var b := Begun(s, i, op, Second(op));
    LaterRuns(s, i, op);
    var r := Exec(b, Later(i, op));
    ReadBackRuns(r, i, off);
    ExecAppends(b, Later(i, op), ReadBack(i, off));
    OtherOffsetStays(s.dev.mem, op, off);
    OtherOffsetStays(plain, op, off);
    var f, g := History(b, Later(i, op))[0], History(r, ReadBack(i, off))[0];
    assert History(b, Later(i, op) + ReadBack(i, off)) == [f, g];
    TwoFinished(plain, f, g);
  }

  /** The first access of a call, with the CPU answering after k slices. */
  function Detour(i: int, k: nat): seq<Action> {
    if k == 0 || k > 4 then Steps(i, 6) else Steps(i, k + 1) + [Answer] + Steps(i, 5 - k)
  }

  /** The outstanding write of s carried out at another offset. */
  function Strayed(s: State, at: Byte): State {
    s.(dev := s.dev.(mem := s.dev.mem[at := s.dev.dat], csr := s.dev.csr.(s1 := s.dev.csr.s1.(high := false))),
       issued := None, book := Record(s.book, s.issued))
  }

  lemma AmidAnswers(s: State, i: int, op: Op, k: nat)
    requires 0 <= i < |s.threads| && Busy(s.dev) && s.dev.csr.s1.low && k <= 4
    ensures Next(Amid(Begun(s, i, op, SetAddr), i, k), Answer)
         == Amid(Begun(Strayed(s, Passing(s.dev.addr, op.off, k)), i, op, SetAddr), i, k)
  {
    PassingIs(s.dev, op, k);
    PassingIs(Strayed(s, Passing(s.dev.addr, op.off, k)).dev, op, k);
    hide WrittenSlices, Passing;
  }

  lemma PassingIs(d: Device, op: Op, k: nat)
    requires k <= 4
    ensures WrittenSlices(d, op, SetAddr, k) == d.(addr := Passing(d.addr, op.off, k))
    ensures ReadSlices(d, op.off, op, SetAddr, k) == op.off
  {
    if k > 0 {
      PassingIs(d, op, k - 1);
    }
  }

  lemma DetourRuns(s: State, i: int, op: Op, k: nat)
    requires s.cpld.None? && 0 <= i < |s.threads| && Busy(s.dev) && s.dev.csr.s1.low && 1 <= k <= 4
    ensures var b := Begun(s, i, op, SetAddr);
      var strayed := Strayed(s, Passing(s.dev.addr, op.off, k));
      && Exec(b, Detour(i, k)) == Begun(strayed.(dev := strayed.dev.(addr := op.off)), i, op, Second(op))
      && History(b, Detour(i, k)) == [] && Orderly(b, Detour(i, k))
  {
    hide Exec, History, Orderly, Steps, Accessed, Run, Amid, Passing, Next, FinishedBy, OrderlyAction;
    var b := Begun(s, i, op, SetAddr);
    var strayed := Strayed(s, Passing(s.dev.addr, op.off, k));
    var b1 := Begun(strayed, i, op, SetAddr);
    AmidRuns(b, i, k);
    AmidRuns(b1, i, k);
    AmidAnswers(s, i, op, k);
    AccessIsQuiet(b, i);
    AccessIsQuiet(b1, i);
    AccessStages(strayed, i, op);
    SplitSteps(b, i, k + 1, 5 - k);
    SplitSteps(b1, i, k + 1, 5 - k);
    var a := Amid(b, i, k);
    AnswerIsQuiet(a);
    ExecOne(a, Answer);
    ExecAppends(b, Steps(i, k + 1), [Answer]);
    ExecAppends(b, Steps(i, k + 1) + [Answer], Steps(i, 5 - k));
  }

  lemma AnswerIsQuiet(s: State)
    ensures FinishedBy(s, Answer) == [] && OrderlyAction(s, Answer)
  {
  }

  lemma {:induction false} StepsAdd(i: int, m: nat, n: nat)
    ensures Steps(i, m + n) == Steps(i, m) + Steps(i, n)
  {
    if n > 0 {
      StepsAdd(i, m, n - 1);
      assert Steps(i, m + n) == Steps(i, m) + (Steps(i, n - 1) + [Step(i)]);
    }
  }

  lemma SplitSteps(s: State, i: int, m: nat, n: nat)
    ensures Exec(s, Steps(i, m)) == Run(s, i, m)
    ensures Exec(s, Steps(i, m + n)) == Exec(Run(s, i, m), Steps(i, n))
    ensures History(s, Steps(i, m + n)) == History(s, Steps(i, m)) + History(Run(s, i, m), Steps(i, n))
    ensures Orderly(s, Steps(i, m + n)) <==> Orderly(s, Steps(i, m)) && Orderly(Run(s, i, m), Steps(i, n))
  {
    hide Exec, History, Orderly, Run, Steps;
    StepsAdd(i, m, n);
    StepsRun(s, i, m);
    ExecAppends(s, Steps(i, m), Steps(i, n));
  }

  /** A run that breaks, if a call begins that may not: the outstanding write is withdrawn by the call's own
      command, or the CPU answers after the first slices of AVR_ADDR. */
  function Disorder(i: int, op: Op, k: nat, off: Byte): seq<Action> {
    Detour(i, k) + (Later(i, op) + ReadBack(i, off))
  }

  lemma DisorderBreaks(s: State, i: int, op: Op, k: nat)
    requires Inv(s) && s.cpu.None? && s.cpld.None? && 0 <= i < |s.threads| && s.threads[i] == Waiting(op)
    requires Pending(s.dev, s.issued) && k <= 4
    requires var late := s.issued.value;
      var at := Passing(late.off, op.off, k);
      !Spared(s.dev.mem, at, late.val, op) && (k > 0 ==> at != late.off)
    ensures var b := Next(s, Step(i));
      var run := Disorder(i, op, k, Passing(s.issued.value.off, op.off, k));
      !Sequential(Effective(s), History(b, run)) && Orderly(b, run)
  {
    hide Exec, History, Orderly, Detour, Later, ReadBack, Sequential, Accessed, Steps;
    var late := s.issued.value;
    var at := Passing(late.off, op.off, k);
    var b := Begun(s, i, op, SetAddr);
    assert Next(s, Step(i)) == b;
    assert Lookup(Effective(s), at) == if k == 0 then late.val else Lookup(s.dev.mem, at);
    var s1 := if k == 0 then s else Strayed(s, at);
    var s2 := s1.(dev := s1.dev.(addr := op.off));
    if k == 0 {
      AccessIsQuiet(b, i);
      AccessStages(s, i, op);
      NoDetour(i);
    } else {
      DetourRuns(s, i, op, k);
    }
    RestTells(s2, i, op, at, Effective(s));
    var rest := Later(i, op) + ReadBack(i, at);
    ExecAppends(b, Detour(i, k), rest);
    assert History(b, Disorder(i, op, k, at)) == History(Begun(s2, i, op, Second(op)), rest);
  }

  lemma NoDetour(i: int)
    ensures Detour(i, 0) == Steps(i, 6)
  {
  }

  /** A thread that holds the CPLD lock for a kick while another one gets the CPU lock. */
  predicate Beside(s: State, i: int, op: Op) {
    Locks(s) && s.cpu.None? && 0 <= i < |s.threads| && s.threads[i] == Waiting(op) && s.cpld.Some?
  }

  /** Its moves and the taking of the CPU lock do not disturb one another, nor does it touch what matters of the
      mailbox. */
  lemma KickerMoves(s: State, i: int, op: Op)
    requires Beside(s, i, op) && Inv(s)
    ensures var j := s.cpld.value;
      var r := Next(s, Step(j));
      && s.threads[j].Kicking? && Inv(r) && r.cpu.None? && |r.threads| == |s.threads| && r.threads[i] == Waiting(op)
      && r.cpld == (if s.threads[j].sent then None else s.cpld)
      && (!s.threads[j].sent ==> r.threads[j] == Kicking(s.threads[j].segment, true))
      && r.issued == s.issued && r.dev.mem == s.dev.mem && Pending(r.dev, r.issued) == Pending(s.dev, s.issued)
      && Effective(r) == Effective(s)
      && Next(Next(s, Step(i)), Step(j)) == Next(r, Step(i))
      && FinishedBy(Next(s, Step(i)), Step(j)) == [] && OrderlyAction(Next(s, Step(i)), Step(j))
  {
    var j := s.cpld.value;
    KickKeeps(s, j);
    hide Inv, Told;
    assert Next(Next(s, Step(i)), Step(j)).threads == Next(Next(s, Step(j)), Step(i)).threads;
  }

  /** What the thread in the way has left to do. */
  function KickRest(s: State): seq<Action> {
    if s.cpld.None? then [] else
      var j := s.cpld.value;
      if 0 <= j < |s.threads| && s.threads[j].Kicking? && !s.threads[j].sent then [Step(j)] + [Step(j)] else [Step(j)]
  }

  lemma KickerLeaves(s: State, i: int, op: Op)
    requires Inv(s) && s.cpu.None? && 0 <= i < |s.threads| && s.threads[i] == Waiting(op)
    ensures var r := Exec(s, KickRest(s));
      && Inv(r) && r.cpu.None? && r.cpld.None? && |r.threads| == |s.threads| && r.threads[i] == Waiting(op)
      && r.issued == s.issued && r.dev.mem == s.dev.mem && Pending(r.dev, r.issued) == Pending(s.dev, s.issued)
      && Effective(r) == Effective(s)
      && Exec(Next(s, Step(i)), KickRest(s)) == Next(r, Step(i))
      && History(Next(s, Step(i)), KickRest(s)) == [] && Orderly(Next(s, Step(i)), KickRest(s))
  {
    hide Told, Next, Effective, Pending, FinishedBy, Orderly, OrderlyAction, Exec, History;
    var b := Next(s, Step(i));
    if s.cpld.None? {
      NothingDone(s);
      NothingDone(b);
    } else {
      var j := s.cpld.value;
      KickerMoves(s, i, op);
      ExecOne(s, Step(j));
      ExecOne(b, Step(j));
      var s1 := Next(s, Step(j));
      if !s.threads[j].sent {
        KickerMoves(s1, i, op);
        ExecOne(s1, Step(j));
        ExecOne(Next(b, Step(j)), Step(j));
        ExecAppends(s, [Step(j)], [Step(j)]);
        ExecAppends(b, [Step(j)], [Step(j)]);
      }
    }
  }

  lemma NothingDone(s: State)
    ensures Exec(s, []) == s && History(s, []) == [] && Orderly(s, [])
  {
  }

  /** Once thread i has got the CPU lock, every orderly run keeps the calls sequential. */
  ghost predicate BeginsSafely(s: State, i: int) {
    var b := Next(s, Step(i));
    forall actions :: Orderly(b, actions) ==> Sequential(Effective(s), History(b, actions))
  }

  /** The condition on the beginning of a call is the exact one: whatever is outstanding, all further orderly runs
      are sequential if and only if none is a write, or all offsets that AVR_ADDR passes through on its way to the
      call's own hold the value of that write, except one that the call is going to write. */
  lemma BeginExactly(s: State, i: int, op: Op)
    requires Inv(s) && s.cpu.None? && 0 <= i < |s.threads| && s.threads[i] == Waiting(op)
    ensures BeginsSafely(s, i) <==> MayBegin(s.dev, s.issued, op)
  {
    hide Inv, Sequential, Effective, Orderly, History, Exec, Disorder, KickRest;
    CallBegins(s, i, op);
    ExecOne(s, Step(i));
    var b := Next(s, Step(i));
    if MayBegin(s.dev, s.issued, op) {
      forall actions | Orderly(b, actions)
        ensures Sequential(Effective(s), History(b, actions))
      {
        ExecAppends(s, [Step(i)], actions);
        MailboxIsSequential(s, [Step(i)] + actions);
        assert History(s, [Step(i)] + actions) == History(b, actions);
      }
    } else {
      var late := s.issued.value;
      var k: nat :| k <= 4 && !Spared(s.dev.mem, Passing(late.off, op.off, k), late.val, op);
      var from: nat := if Spared(s.dev.mem, Passing(late.off, op.off, 0), late.val, op) then k else 0;
      KickerLeaves(s, i, op);
      var r := Exec(s, KickRest(s));
      DisorderBreaks(r, i, op, from);
      var disorder := Disorder(i, op, from, Passing(late.off, op.off, from));
      ExecAppends(b, KickRest(s), disorder);
      assert History(b, KickRest(s) + disorder) == History(Next(r, Step(i)), disorder);
      assert Orderly(b, KickRest(s) + disorder);
    }
  }

  lemma OtherOffsetStays(m: Memory, op: Op, off: Byte)
    requires op.ReadOp? || op.off != off
    ensures Lookup(Apply(m, op), off) == Lookup(m, off)
  {
  }

  /** A write during whose wait a byte-wide kick comes, and a read back. */
  function KickedAndReadBack(i: int, op: Op, segment: int): seq<Action> {
    HandOver(i, op) + [WideKick(segment)] + Finish(i, op) + [Call(i, ReadOp(op.off))] + CallRun(i, ReadOp(op.off))
  }

  /** Gentle cannot be dropped either: a byte-wide kick while a write waits makes the write end as if in time,
      with nothing stored, and a read tells. */
  lemma WideKickBreaks(s: State, i: int, op: Op, segment: int)
    requires s.cpu.None? && s.cpld.None? && 0 <= i < |s.threads| && s.threads[i] == Waiting(op)
    requires op.WriteOp? && Lookup(s.dev.mem, op.off) != op.val
    ensures !Sequential(Effective(s), History(s, KickedAndReadBack(i, op, segment)))
  {
    hide Exec, History, CallRun, HandOver, Finish, Lookup, Sequential, Effective;
    var read := ReadOp(op.off);
    CallHandsOver(s, i, op);
    var s1 := Polling(s, i, op);
    ExecOne(s1, WideKick(segment));
    ExecAppends(s, HandOver(i, op), [WideKick(segment)]);
    var s2 := Next(s1, WideKick(segment));
    assert s2 == s1.(dev := s1.dev.(csr := WideKickByte(segment)));
    CallFinishes(s2, i);
    ExecAppends(s, HandOver(i, op) + [WideKick(segment)], Finish(i, op));
    var s3 := Left(s2, i);
    ExecOne(s3, Call(i, read));
    CallWaits(s3, i, read);
    ExecAppends(s, HandOver(i, op) + [WideKick(segment)] + Finish(i, op), [Call(i, read)]);
    var s4 := Next(s3, Call(i, read));
    CallRuns(s4, i, read);
    ExecAppends(s, HandOver(i, op) + [WideKick(segment)] + Finish(i, op) + [Call(i, read)], CallRun(i, read));
    assert FinishedBy(s3, Call(i, read)) == [] && FinishedBy(s1, WideKick(segment)) == [];
    var f, g := Finished(op, s2.dev.csr, false), History(s4, CallRun(i, read))[0];
    assert History(s, KickedAndReadBack(i, op, segment)) == [f, g];
    WrittenIsFound(Effective(s), op);
    TwoFinished(Effective(s), f, g);
  }

  lemma WrittenIsFound(m: Memory, op: Op)
    requires op.WriteOp?
    ensures Lookup(Apply(m, op), op.off) == op.val
  {
  }

  lemma OneFinished(plain: Memory, f: Finished)
    requires f.op.ReadOp? && !f.late && f.result != Lookup(plain, f.op.off)
    ensures !Sequential(plain, [f])
  {
    var h := [f];
    assert h[..0] == [] && Replay(plain, []) == plain && h[0] == f;
  }

  /** A read during whose first access a late answer comes. */
  function LateAnswerRun(i: int, op: Op): seq<Action> {
    [Step(i)] + Steps(i, 6) + [Answer] + Steps(i, 6) + [Answer] + Finish(i, op)
  }

  /** The other way to break: the late answer comes after a read of another offset has written AVR_ADDR. The
      old value is then stored at the new offset, and the read returns it. */
  lemma LateAnswerMisleads(s: State, i: int, off: Byte)
    requires Inv(s) && s.cpu.None? && s.cpld.None? && 0 <= i < |s.threads| && s.threads[i] == Waiting(ReadOp(off))
    requires Busy(s.dev) && s.issued.value.WriteOp? && s.issued.value.off != off
    requires Lookup(s.book, off) != s.issued.value.val
    ensures !Sequential(Effective(s), History(s, LateAnswerRun(i, ReadOp(off))))
  {
    hide Exec, History, Steps, Accessed, Sequential, Finish, Locks, SameBut;
    var op, late := ReadOp(off), s.issued.value;
    CallBegins(s, i, op);
    AccessStages(s, i, op);
    AccessIsQuiet(Begun(s, i, op, SetAddr), i);
    ExecAppends(s, [Step(i)], Steps(i, 6));
    var s1 := Begun(s.(dev := s.dev.(addr := off)), i, op, SetCsr);
    LateAnswerStores(s1, off, late);
    ExecOne(s1, Answer);
    ExecAppends(s, [Step(i)] + Steps(i, 6), [Answer]);
    var s2 := Next(s1, Answer);
    assert s2 == Begun(s2, i, op, SetCsr);
    AccessStages(s2, i, op);
    AccessIsQuiet(s2, i);
    ExecAppends(s, [Step(i)] + Steps(i, 6) + [Answer], Steps(i, 6));
    var s3 := Accessed(s2, i);
    AnswerCarries(s3, op);
    ExecOne(s3, Answer);
    ExecAppends(s, [Step(i)] + Steps(i, 6) + [Answer] + Steps(i, 6), [Answer]);
    CallFinishes(Next(s3, Answer), i);
    ExecAppends(s, [Step(i)] + Steps(i, 6) + [Answer] + Steps(i, 6) + [Answer], Finish(i, op));
    assert History(s, LateAnswerRun(i, op)) == [Finished(op, late.val, false)];
    OtherOffsetStays(s.book, late, off);
    assert Effective(s) == Apply(s.book, late);
    OneFinished(Effective(s), Finished(op, late.val, false));
  }

  lemma LateAnswerStores(s: State, off: Byte, late: Op)
    requires Busy(s.dev) && s.dev.csr.s1.low && s.dev.addr == off && late.WriteOp? && s.dev.dat == late.val
    ensures var r := Next(s, Answer);
      && r == s.(dev := r.dev, issued := None, book := r.book) && FinishedBy(s, Answer) == []
      && Lookup(r.dev.mem, off) == late.val && r.dev.addr == off
  {
  }
}
