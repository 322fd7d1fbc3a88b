/** The two direction repairs, module/cpld_sdp.c:26-49 and module/cpld_esdp.c:44-88, for any table of pins
    and any registers. */
module DirectionTable {
  import opened Words

  /** One pin of a table: the register with its direction bit, that bit, and the direction wanted. */
  datatype Row = Row(reg: nat, dir: int, output: bool)

  /** No two rows share a direction bit, and all registers exist. */
  predicate Fits(rows: seq<Row>, registers: nat) {
    && (forall i | 0 <= i < |rows| :: rows[i].reg < registers)
    && (forall i, j | 0 <= i < j < |rows| :: rows[i].reg != rows[j].reg || rows[i].dir != rows[j].dir)
  }

  predicate RowRight(row: Row, words: seq<Word>)
    requires row.reg < |words|
  {
    row.dir in words[row.reg] <==> row.output
  }

  predicate AllRight(rows: seq<Row>, words: seq<Word>)
    requires forall i | 0 <= i < |rows| :: rows[i].reg < |words|
  {
    forall i | 0 <= i < |rows| :: RowRight(rows[i], words)
  }

  /** The rows of one register, which is what the loop of module/cpld_esdp.c picks by port. */
  predicate RightIn(rows: seq<Row>, reg: nat, word: Word) {
    forall i | 0 <= i < |rows| && rows[i].reg == reg :: rows[i].dir in word <==> rows[i].output
  }

  predicate IsDirection(rows: seq<Row>, reg: nat, bit: int) {
    exists i | 0 <= i < |rows| :: rows[i].reg == reg && rows[i].dir == bit
  }

  /** Only direction bits of the table differ, and those bits of input pins that reads of the register
      do not take from it. */
  ghost predicate SameBut(rows: seq<Row>, inputs: seq<Word>, before: seq<Word>, after: seq<Word>)
    requires |before| == |after| == |inputs|
  {
    forall r, n | 0 <= r < |before| && !IsDirection(rows, r, n) && n !in inputs[r] ::
      n in after[r] <==> n in before[r]
  }

  /** At most the row's register has changed, and in it only the direction bit and input bits. */
  ghost predicate RowMoved(row: Row, inputs: seq<Word>, before: seq<Word>, after: seq<Word>)
    requires |before| == |after| == |inputs|
  {
    forall r, n | 0 <= r < |before| && (r != row.reg || (n != row.dir && n !in inputs[r])) :: n in after[r] <==>
        n in before[r]
  }

  lemma RowMovedAlone(rows: seq<Row>, i: nat, inputs: seq<Word>, start: seq<Word>, before: seq<Word>, after: seq<Word>)
    requires i < |rows| && |start| == |before| == |after| == |inputs| && Fits(rows, |before|)
    requires forall j | 0 <= j < |rows| :: rows[j].dir !in inputs[rows[j].reg]
    requires RowMoved(rows[i], inputs, before, after)
    ensures forall j | 0 <= j < |rows| && j != i :: RowRight(rows[j], after) <==> RowRight(rows[j], before)
    ensures SameBut(rows, inputs, start, before) ==> SameBut(rows, inputs, start, after)
  {
    assert IsDirection(rows, rows[i].reg, rows[i].dir);
  }

  lemma RowIsMoved(row: Row, inputs: seq<Word>, before: seq<Word>, after: seq<Word>)
    requires |before| == |after| == |inputs| && row.reg < |before|
    requires forall r | 0 <= r < |before| && r != row.reg :: after[r] == before[r]
    requires forall n | n != row.dir && n !in inputs[row.reg] :: n in after[row.reg] <==> n in before[row.reg]
    ensures RowMoved(row, inputs, before, after)
  {
  }

  /** Two words that differ in bits 8 to 15 at most are the same exactly if those bits are. */
  lemma SecondByteDecides(a: Word, b: Word)
    requires forall n | !(8 <= n < 16) :: n in a <==> n in b
    ensures SecondByte(a) == SecondByte(b) <==> a == b
  {
    if SecondByte(a) == SecondByte(b) {
      forall n
        ensures n in a <==> n in b
      {
        assert 8 <= n < 16 ==> (n in a <==> n in SecondByte(a)) && (n in b <==> n in SecondByte(b));
      }
    }
  }

  /** The first row that is wrong. */
  predicate FirstWrong(rows: seq<Row>, words: seq<Word>, i: nat)
    requires i < |rows| && forall j | 0 <= j < |rows| :: rows[j].reg < |words|
  {
    AllRight(rows[..i], words) && !RowRight(rows[i], words)
  }

  lemma WrongHere(rows: seq<Row>, words: seq<Word>, i: nat)
    requires i < |rows| && forall j | 0 <= j < |rows| :: rows[j].reg < |words|
    requires AllRight(rows[..i], words) && !RowRight(rows[i], words)
    ensures FirstWrong(rows, words, i)
  {
  }

  /** The registers of a card. A read of a register finds the bits of its input pins at whatever level the
      pins have: levels says so, read by read. writes counts the writes. */
  class Registers {
    const inputs: seq<Word>
    var words: seq<Word>
    var levels: seq<Word>
    var writes: nat

    /** The pins of the table do not have their direction bits where input pins show. */
    ghost predicate Valid(rows: seq<Row>)
      reads this`words
    {
      && |words| == |inputs| && Fits(rows, |words|)
      && forall i | 0 <= i < |rows| :: rows[i].dir !in inputs[rows[i].reg]
    }

    method IoRead32(reg: nat) returns (val: Word)
      requires reg < |words| == |inputs|
      modifies this`levels
      ensures forall n :: n !in inputs[reg] ==> (n in val <==> n in words[reg])
    {
      var level := {};
      if levels != [] {
        level, levels := levels[0], levels[1..];
      }
      val := (words[reg] - inputs[reg]) + (level * inputs[reg]);
    }

    method IoWrite32(val: Word, reg: nat)
      requires reg < |words|
      modifies this`words, this`writes
      ensures words == old(words)[reg := val] && writes == old(writes) + 1
    {
      words := words[reg := val];
      writes := writes + 1;
    }

    /** cpld_sdp_set_pin_direction of module/cpld_sdp.c: 0 exactly if all directions were right, and then
        nothing was written, else each row is from the first wrong one on; all are right afterwards, and no other
        bit has changed. */
    method SetPinDirection(rows: seq<Row>) returns (rv: int)
      requires Valid(rows)
      modifies this`words, this`levels, this`writes
      ensures |words| == |old(words)| && AllRight(rows, words)
      ensures rv == 0 <==> AllRight(rows, old(words))
      ensures rv == 0 ==> words == old(words) && writes == old(writes)
      ensures rv != 0 ==>
        exists i | 0 <= i < |rows| :: FirstWrong(rows, old(words), i) && writes == old(writes) + |rows| - i
      ensures SameBut(rows, inputs, old(words), words)
    {
      rv := 0;
      ghost var first := 0;
      for i := 0 to |rows|
        invariant |words| == |old(words)|
        invariant rv == 0 <==> AllRight(rows[..i], old(words))
        invariant rv == 0 ==> words == old(words) && writes == old(writes)
        invariant rv != 0 ==> first < i && FirstWrong(rows, old(words), first) && writes == old(writes) + i - first
        invariant forall j | 0 <= j < i :: RowRight(rows[j], words)
        invariant forall j | i <= j < |rows| :: RowRight(rows[j], words) <==> RowRight(rows[j], old(words))
        invariant SameBut(rows, inputs, old(words), words)
      {
        hide RowMoved, SameBut, IsDirection, FirstWrong;
        assert rows[..i + 1] == rows[..i] + [rows[i]];
        ghost var before := words;
        var val := IoRead32(rows[i].reg);
        if (rows[i].dir in val) != rows[i].output {
          val := MoveBit(val, rows[i].dir, rows[i].output);
          if rv == 0 {
            first := i;
            WrongHere(rows, old(words), i);
            rv := -1;
          }
        }
        if rv != 0 {
          IoWrite32(val, rows[i].reg);
        }
        RowIsMoved(rows[i], inputs, before, words);
        RowMovedAlone(rows, i, inputs, old(words), before, words);
      }
      assert rows[..|rows|] == rows;
    }

    /** cpld_sdp_set_pin_direction of module/cpld_esdp.c, on the register of one port; its directions are among
        bits 8 to 15. */
    method SetPortDirection(rows: seq<Row>, reg: nat) returns (rv: int)
      requires Valid(rows) && reg < |words|
      requires forall i | 0 <= i < |rows| && rows[i].reg == reg :: 8 <= rows[i].dir < 16
      modifies this`words, this`levels, this`writes
      ensures |words| == |old(words)| && RightIn(rows, reg, words[reg])
      ensures rv == 0 <==> RightIn(rows, reg, old(words)[reg])
      ensures rv == 0 ==> words == old(words)
      ensures writes == old(writes) + if rv == 0 then 0 else 1
      ensures forall r | 0 <= r < |words| && r != reg :: words[r] == old(words)[r]
      ensures SameBut(rows, inputs, old(words), words)
    {
      var found := IoRead32(reg);
      var val := Directed(rows, reg, found);
      SecondByteDecides(found, val);
      if SecondByte(found) != SecondByte(val) {
        IoWrite32(val, reg);
        return -1;
      }
      return 0;
    }

    /** The loop over the table, on the word just read. */
    method Directed(rows: seq<Row>, reg: nat, found: Word) returns (val: Word)
      requires Valid(rows)
      ensures RightIn(rows, reg, val)
      ensures forall n :: !IsDirection(rows, reg, n) ==> (n in val <==> n in found)
      ensures val == found <==> RightIn(rows, reg, found)
    {
      val := found;
      for i := 0 to |rows|
        invariant RightIn(rows[..i], reg, val)
        invariant forall n :: !IsDirection(rows[..i], reg, n) ==> (n in val <==> n in found)
        invariant val == found <==> RightIn(rows[..i], reg, found)
      {
        assert rows[..i + 1] == rows[..i] + [rows[i]];
        if rows[i].reg != reg {
          continue;
        }
        assert !IsDirection(rows[..i], reg, rows[i].dir);
        val := MoveBit(val, rows[i].dir, rows[i].output);
      }
      assert rows[..|rows|] == rows;
    }
  }
}
