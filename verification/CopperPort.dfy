/** Commanding a copper port, module/port.c:22-49 and 89-107: the power-down bit of the PHY control
    register is changed by read-modify-write over a management register that is polled a bounded
    number of times. A word is the set of its one bits. */
module CopperPort {
  import opened Words

  const MAX_PHY_RETRY := 200
  const READY := 28
  const POWER_DOWN := 11
  const READ_OP: Word := {27}
  const WRITE_OP: Word := {26}
  const PHY_ADDR: Word := {21}
  /** PHY_CTL_REG is register 0: no bit of the register field is set. */
  const PHY_CTL_REG: Word := {}
  const LED_FORCED: Word := {0, 1, 2, 3}

  function Field(word: Word, low: int, high: int): (r: Word)
    ensures r <= word
  {
    set b | b in word && low <= b < high
  }

  function Data(word: Word): Word {
    Field(word, 0, 16)
  }

  /** Where a command word selects its register. */
  function Selected(word: Word): Word {
    Field(word, 16, 21)
  }

  /** What the PHY at address 1 takes a command word for: the operation is in bits 26 and 27, the address in
      bits 21 to 25. */
  predicate IsWrite(word: Word) {
    26 in word && 27 !in word && Field(word, 21, 26) == {21}
  }

  predicate IsRead(word: Word) {
    27 in word && 26 !in word && Field(word, 21, 26) == {21}
  }

  /** The PHY registers as a total map from the register field of a command word. */
  function Reg(registers: map<Word, Word>, number: Word): Word {
    if number in registers then Data(registers[number]) else {}
  }

  predicate IsNumber(number: Word) {
    number == Selected(number)
  }

  /** Every command word says what it was built from: the fields do not overlap. */
  lemma CommandDecodes(op: Word, number: Word, data: Word)
    requires op == READ_OP || op == WRITE_OP
    requires IsNumber(number) && data == Data(data)
    ensures var word := op + PHY_ADDR + number + data;
      && Selected(word) == number && Data(word) == data
      && (IsWrite(word) <==> op == WRITE_OP) && (IsRead(word) <==> op == READ_OP) && READY !in word
  {
    var word := op + PHY_ADDR + number + data;
    assert forall b :: b in number ==> b in Selected(number);
    assert forall b :: b in data ==> b in Data(data);
    assert Selected(word) == number;
    assert Data(word) == data;
    assert Field(word, 21, 26) == {21};
  }

  /** The PHY control register after port_set, given which of its two transactions were answered. */
  function Commanded(control: Word, up: bool, readAnswered: bool, writeAnswered: bool): Word {
    var seen := if readAnswered then control else {};
    if !writeAnswered then control
    else if up then seen - {POWER_DOWN}
    else seen + {POWER_DOWN}
  }

  /** The port obeys exactly if the second transaction is answered (or it was in that state anyway). The other
      control bits survive exactly if the first one is answered too, the second one is not, or there were
      none: when only the read times out the register is rewritten from zero. */
  lemma CommandedExactly(control: Word, up: bool, readAnswered: bool, writeAnswered: bool)
    ensures var after := Commanded(control, up, readAnswered, writeAnswered);
      && ((11 in after <==> !up) <==> writeAnswered || (11 in control <==> !up))
      && (after - {11} == control - {11} <==>
            readAnswered || !writeAnswered || control <= {11})
      && (!readAnswered && writeAnswered ==> after <= {11})
  {
    var after := Commanded(control, up, readAnswered, writeAnswered);
    if readAnswered || !writeAnswered || control <= {POWER_DOWN} {
      assert after - {POWER_DOWN} == control - {POWER_DOWN};
    } else {
      assert after - {POWER_DOWN} == {};
      assert control == (control - {POWER_DOWN}) + (control * {POWER_DOWN});
    }
  }

  // A write that was given up may still be carried out, as long as no other command replaces it.

  /** The PHY registers if the command left in the management register is finished after all. */
  function Overtaken(registers: map<Word, Word>, mdi: Word, lag: bool): map<Word, Word> {
    if lag && READY !in mdi && IsWrite(mdi) then registers[Selected(mdi) := Data(mdi)] else registers
  }

  datatype Pending = NoWrite | LateWrite(word: Word)

  /** What matters of the port between two calls: the PHY control register, and the write of it that may
      still come. */
  datatype Link = Link(control: Word, pending: Pending)

  function LinkOf(registers: map<Word, Word>, mdi: Word): Link {
    Link(Reg(registers, PHY_CTL_REG),
         if READY !in mdi && IsWrite(mdi) && Selected(mdi) == PHY_CTL_REG then LateWrite(Data(mdi)) else NoWrite)
  }

  /** One call of port_set: what is asked, which transactions are answered, and whether the write left over from
      earlier is carried out before it is replaced. */
  datatype Attempt = Attempt(up: bool, readAnswered: bool, writeAnswered: bool, lag: bool)

  function Begun(l: Link, lag: bool): Word {
    if lag && l.pending.LateWrite? then l.pending.word else l.control
  }

  lemma OvertakenIsBegun(registers: map<Word, Word>, mdi: Word, lag: bool)
    ensures Reg(Overtaken(registers, mdi, lag), PHY_CTL_REG) == Begun(LinkOf(registers, mdi), lag)
  {
    assert Data(Data(mdi)) == Data(mdi);
  }

  function After(l: Link, a: Attempt): Link {
    var control := Begun(l, a.lag);
    Link(Commanded(control, a.up, a.readAnswered, a.writeAnswered),
         if a.writeAnswered then NoWrite else LateWrite(Commanded(control, a.up, a.readAnswered, true)))
  }

  /** When a late write is harmless to the next call: exactly if that call rewrites the register from zero, or it
      rewrites what it read and the late write changes at most the power-down bit, or the late write changes
      nothing. */
  lemma LateWriteExactly(control: Word, late: Word, up: bool, readAnswered: bool, writeAnswered: bool)
    ensures Commanded(late, up, readAnswered, writeAnswered) == Commanded(control, up, readAnswered, writeAnswered) <==>
      if !writeAnswered then late == control
      else readAnswered ==> late - {POWER_DOWN} == control - {POWER_DOWN}
  {
    if writeAnswered && readAnswered {
      if late - {POWER_DOWN} == control - {POWER_DOWN} {
        assert late + {POWER_DOWN} == (late - {POWER_DOWN}) + {POWER_DOWN};
        assert control + {POWER_DOWN} == (control - {POWER_DOWN}) + {POWER_DOWN};
      } else if !up {
        assert (late + {POWER_DOWN}) - {POWER_DOWN} == late - {POWER_DOWN};
        assert (control + {POWER_DOWN}) - {POWER_DOWN} == control - {POWER_DOWN};
      }
    }
  }

  function AfterAll(l: Link, attempts: seq<Attempt>): Link {
    if attempts == [] then l
    else After(AfterAll(l, attempts[..|attempts| - 1]), attempts[|attempts| - 1])
  }

  /** Only the power-down bit tells the two words apart. */
  predicate SameMode(a: Word, b: Word) {
    a - {POWER_DOWN} == b - {POWER_DOWN}
  }

  /** Nothing but the power-down bit is at stake. */
  predicate Safe(l: Link, mode: Word) {
    SameMode(l.control, mode) && (l.pending.LateWrite? ==> SameMode(l.pending.word, mode))
  }

  lemma AttemptIsSafe(l: Link, a: Attempt, mode: Word)
    requires Safe(l, mode) && a.readAnswered
    ensures Safe(After(l, a), mode)
  {
    var control := Begun(l, a.lag);
    assert SameMode(control, mode);
    assert SameMode(control + {POWER_DOWN}, control) && SameMode(control - {POWER_DOWN}, control);
  }

  /** Any run of calls whose reads are answered, whatever becomes of their writes and however late these are
      carried out: the other control bits stay, and the port is as the last call asked exactly if its write was
      answered or the port, possibly by a late write, was so already; what may come later is as it asked. */
  lemma {:induction false} RunsObey(l: Link, attempts: seq<Attempt>)
    requires Safe(l, l.control) && forall a :: a in attempts ==> a.readAnswered
    ensures Safe(AfterAll(l, attempts), l.control)
    ensures attempts != [] ==>
      var before, a := AfterAll(l, attempts[..|attempts| - 1]), attempts[|attempts| - 1];
      (POWER_DOWN in AfterAll(l, attempts).control <==> !a.up)
        <==> a.writeAnswered || (POWER_DOWN in Begun(before, a.lag) <==> !a.up)
    ensures attempts != [] ==>
      var l1, a := AfterAll(l, attempts), attempts[|attempts| - 1];
      && (l1.pending.LateWrite? <==> !a.writeAnswered)
      && (l1.pending.LateWrite? ==> (POWER_DOWN in l1.pending.word <==> !a.up))
  {
    hide Safe;
    if attempts != [] {
      var a := attempts[|attempts| - 1];
      assert a in attempts;
      RunsObey(l, attempts[..|attempts| - 1]);
      AttemptIsSafe(AfterAll(l, attempts[..|attempts| - 1]), a, l.control);
    }
  }

  /** One port. Each command written to the management register is performed at a read of that register
      chosen by the hardware: delays holds how many reads come before it, command by command, and lags says
      whether a command given up is performed just before the next one replaces it. */
  class Port {
    var registers: map<Word, Word>
    var mdi: Word
    var wait: nat
    var delays: seq<nat>
    var lags: seq<bool>
    var led: Word

    /** Whether the k-th command from now is answered before the driver gives up. */
    predicate Answered(k: nat)
      reads this`delays
    {
      k < |delays| ==> delays[k] < 200
    }

    predicate Lag(k: nat)
      reads this`lags
    {
      k < |lags| && lags[k]
    }

    function State(): Link
      reads this`registers, this`mdi
    {
      LinkOf(registers, mdi)
    }

    method WriteMdi(word: Word)
      modifies this`mdi, this`wait, this`delays, this`lags, this`registers
      ensures mdi == word
      ensures registers == Overtaken(old(registers), old(mdi), old(Lag(0)))
      ensures wait == if old(delays) == [] then 0 else old(delays)[0]
      ensures delays == if old(delays) == [] then [] else old(delays)[1..]
      ensures lags == if old(lags) == [] then [] else old(lags)[1..]
    {
      if lags != [] {
        registers := Overtaken(registers, mdi, lags[0]);
        lags := lags[1..];
      }
      mdi := word;
      if delays == [] {
        wait := 0;
      } else {
        wait, delays := delays[0], delays[1..];
      }
    }

    method ReadMdi() returns (word: Word)
      requires READY !in mdi
      modifies this`mdi, this`wait, this`registers
      ensures word == mdi
      ensures old(wait) > 0 ==> wait == old(wait) - 1 && mdi == old(mdi) && registers == old(registers)
      ensures old(wait) == 0 ==>
        && READY in mdi
        && Data(mdi) == (if IsRead(old(mdi)) then Reg(old(registers), Selected(old(mdi))) else Data(old(mdi)))
        && registers == Overtaken(old(registers), old(mdi), true)
    {
      if wait > 0 {
        wait := wait - 1;
      } else {
        registers := Overtaken(registers, mdi, true);
        var data := if IsRead(mdi) then Reg(registers, Selected(mdi)) else Data(mdi);
        mdi := data + (mdi - Data(mdi)) + {READY};
        assert Data(mdi) == data;
      }
      word := mdi;
    }

    /** niagara_phy_read: the value of the register, which a command given up earlier may have reached only now,
        or -1 and nothing. */
    method PhyRead(number: Word, value: Word) returns (rc: int, res: Word)
      requires IsNumber(number)
      modifies this`mdi, this`wait, this`delays, this`lags, this`registers
      ensures rc == if old(Answered(0)) then 0 else -1
      ensures res == if old(Answered(0)) then Reg(registers, number) else value
      ensures registers == Overtaken(old(registers), old(mdi), old(Lag(0)))
      ensures READY in mdi || !IsWrite(mdi)
      ensures delays == if old(delays) == [] then [] else old(delays)[1..]
      ensures lags == if old(lags) == [] then [] else old(lags)[1..]
    {
      CommandDecodes(READ_OP, number, {});
      ghost var word := READ_OP + PHY_ADDR + number + {};
      WriteMdi(READ_OP + PHY_ADDR + number + {});
      ghost var delay, before, later := wait, registers, (delays, lags);
      for i := 0 to MAX_PHY_RETRY
        invariant mdi == word && registers == before
        invariant wait == delay - i && (delays, lags) == later
      {
        var val := ReadMdi();
        if READY in val {
          return 0, Data(val);
        }
      }
      return -1, value;
    }

    /** niagara_phy_write: 0 exactly if the register has the value; else the command is left behind. */
    method PhyWrite(number: Word, value: Word) returns (rc: int)
      requires IsNumber(number) && value == Data(value)
      modifies this`mdi, this`wait, this`delays, this`lags, this`registers
      ensures rc == if old(Answered(0)) then 0 else -1
      ensures var before := Overtaken(old(registers), old(mdi), old(Lag(0)));
        registers == if old(Answered(0)) then before[number := value] else before
      ensures READY in mdi <==> old(Answered(0))
      ensures !old(Answered(0)) ==> IsWrite(mdi) && Selected(mdi) == number && Data(mdi) == value
      ensures delays == if old(delays) == [] then [] else old(delays)[1..]
      ensures lags == if old(lags) == [] then [] else old(lags)[1..]
    {
      CommandDecodes(WRITE_OP, number, value);
      ghost var word := WRITE_OP + PHY_ADDR + number + value;
      WriteMdi(WRITE_OP + PHY_ADDR + number + value);
      ghost var delay, before, later := wait, registers, (delays, lags);
      for i := 0 to MAX_PHY_RETRY
        invariant mdi == word && registers == before
        invariant wait == delay - i && (delays, lags) == later
      {
        var val := ReadMdi();
        if READY in val {
          return 0;
        }
      }
      return -1;
    }

    /** copper_port_set: one attempt on the control register; other PHY registers change only by a late write. */
    method PortSet(up: bool)
      modifies this
      ensures State() == After(old(State()), Attempt(up, old(Answered(0)), old(Answered(1)), old(Lag(0))))
      ensures forall n :: n != PHY_CTL_REG ==>
        Reg(registers, n) == Reg(Overtaken(old(registers), old(mdi), old(Lag(0))), n)
      ensures led == if up then (old(led) - {0, 1, 2, 3}) + {1} else old(led) + {0, 1, 2, 3}
    {
      OvertakenIsBegun(registers, mdi, Lag(0));
      hide Field, Selected, Overtaken;
      var rc, val := PhyRead(PHY_CTL_REG, {});
      if up {
        val := val - {POWER_DOWN};
        led := (led - LED_FORCED) + {1};
      } else {
        val := val + {POWER_DOWN};
        led := led + LED_FORCED;
      }
      assert val == Data(val);
      rc := PhyWrite(PHY_CTL_REG, val);
    }
  }
}
