/** The pins of one CPLD link seen through the registers that carry them: which line is driven,
    to what level, and what one read-modify-write of the driver does to them when the NIC may be
    reset, any number of times, before the read and between the read and the write-back. */
module PinView {
  import opened CpldDevice
  import opened Words

  /** cpld_functions_sdp keeps a port's strobe in CTRL and its two other pins in CTRL_EXT;
      cpld_functions_esdp keeps all three in ESDP. */
  datatype Kind = Sdp | Esdp

  /** The pin-carrying registers of one control port. */
  datatype Nic = Nic(ctrl: Word, ctrlExt: Word, esdp: Word)

  /** One pin: its data bit and whether its direction bit says output. */
  datatype Line = Line(data: bool, out: bool)

  /** A port's pins: STB0, ADO0, ADO1 on port 0 and STB1, DI0, DI1 on port 1; and the register bits
      that are none of them. */
  datatype Port = Port(stb: Line, lo: Line, hi: Line, foreign: Nic)

  datatype View = View(port0: Port, port1: Port, float: Levels, cpld: Cpld)

  /** What can happen just before a register access: a reset of one port's NIC, which leaves any register
      contents except that the port's pins are inputs, or undriven wires changing their levels. */
  datatype Event = Reset(port: int, after: Port, float: Levels) | Wander(float: Levels)

  function Pad(l: Line, float: bool): bool {
    if l.out then l.data else float
  }

  /** The levels on the wires the CPLD listens to. */
  function Pads(v: View): Levels {
    Levels(Pad(v.port0.lo, v.float.ado0), Pad(v.port0.hi, v.float.ado1),
           Pad(v.port0.stb, v.float.stb0), Pad(v.port1.stb, v.float.stb1))
  }

  function Settle(v: View): View {
    v.(cpld := Observe(v.cpld, Pads(v)))
  }

  predicate OutputsRight(v: View) {
    v.port0.stb.out && v.port0.lo.out && v.port0.hi.out && v.port1.stb.out
  }

  predicate InputsRight(v: View) {
    !v.port1.lo.out && !v.port1.hi.out
  }

  /** The CPLD has seen the present levels, and its own two lines are inputs of the NIC. */
  predicate Valid(v: View) {
    v.cpld.seen == Pads(v) && InputsRight(v)
  }

  function Released(p: Port): Port {
    p.(stb := p.stb.(out := false), lo := p.lo.(out := false), hi := p.hi.(out := false))
  }

  function Struck(v: View, e: Event): View {
    match e
    case Reset(port, after, float) =>
      Settle(if port == 0 then v.(port0 := Released(after), float := float)
             else v.(port1 := Released(after), float := float))
    case Wander(float) => Settle(v.(float := float))
  }

  function StruckBy(v: View, es: seq<Event>): View
    decreases |es|
  {
    if es == [] then v else Struck(StruckBy(v, es[..|es| - 1]), es[|es| - 1])
  }

  /** What ioread32 finds on a line: an input DI line reads the level the CPLD puts there. */
  function Sensed(l: Line, level: bool): Line {
    if l.out then l else l.(data := level)
  }

  function SensedPort(v: View, port: int): Port {
    if port == 0 then v.port0
    else v.port1.(lo := Sensed(v.port1.lo, Shown(v.cpld) & 1 != 0), hi := Sensed(v.port1.hi, Shown(v.cpld) & 2 != 0))
  }

  function PortOf(o: OutPin): int {
    if o == STB1 then 1 else 0
  }

  /** Overwrite one register of a port with the captured contents. */
  function WriteBack(k: Kind, now: Port, captured: Port, o: OutPin): Port {
    match k
    case Esdp => captured.(foreign := now.foreign.(esdp := captured.foreign.esdp))
    case Sdp =>
      if o == STB0 || o == STB1 then now.(stb := captured.stb, foreign := now.foreign.(ctrl := captured.foreign.ctrl))
      else now.(lo := captured.lo, hi := captured.hi, foreign := now.foreign.(ctrlExt := captured.foreign.ctrlExt))
  }

  function MovedLine(p: Port, o: OutPin, level: bool): Port {
    match o
    case STB0 => p.(stb := p.stb.(data := level))
    case STB1 => p.(stb := p.stb.(data := level))
    case ADO0 => p.(lo := p.lo.(data := level))
    case ADO1 => p.(hi := p.hi.(data := level))
  }

  function Written(k: Kind, v: View, captured: Port, o: OutPin): View {
    Settle(if PortOf(o) == 0 then v.(port0 := WriteBack(k, v.port0, captured, o))
           else v.(port1 := WriteBack(k, v.port1, captured, o)))
  }

  /** bit_up and bit_down as one step: events, the read, more events, the write-back. */
  function Moved(k: Kind, v: View, es1: seq<Event>, es2: seq<Event>, o: OutPin, level: bool): View {
    var v1 := StruckBy(v, es1);
    Written(k, StruckBy(v1, es2), MovedLine(SensedPort(v1, PortOf(o)), o, level), o)
  }

  /** Register bits that are none of the driver's pins. */
  function Foreign(v: View): (Nic, Nic) {
    (v.port0.foreign, v.port1.foreign)
  }

  lemma ObserveSees(c: Cpld, n: Levels)
    ensures Observe(c, n).seen == n
    ensures n == c.seen ==> Observe(c, n) == c
  {
  }

  // What events do to the directions.

  /** Some reset among the events hits the port. */
  predicate HitBy(es: seq<Event>, port: int) {
    exists e :: e in es && e.Reset? && (e.port == 0) == (port == 0)
  }

  predicate ResetFree(es: seq<Event>) {
    forall e :: e in es ==> e.Wander?
  }

  predicate AllReleased(p: Port) {
    !p.stb.out && !p.lo.out && !p.hi.out
  }

  lemma StruckValid(v: View, e: Event)
    requires Valid(v)
    ensures Valid(Struck(v, e))
  {
    hide Observe;
    ObserveSees(v.cpld, Pads(Struck(v, e)));
  }

  lemma HitByLast(es: seq<Event>, port: int)
    requires es != []
    ensures HitBy(es, port) <==>
      HitBy(es[..|es| - 1], port) || (es[|es| - 1].Reset? && (es[|es| - 1].port == 0) == (port == 0))
  {
    var last := es[|es| - 1];
    assert forall e :: e in es <==> e in es[..|es| - 1] || e == last;
  }

  /** A port that no reset hits keeps its registers, one that is hit has its pins released, and nothing
      else brings a line back. */
  lemma {:induction false} EventsRelease(v: View, es: seq<Event>)
    requires Valid(v)
    ensures var r := StruckBy(v, es);
      && Valid(r)
      && (if HitBy(es, 0) then AllReleased(r.port0) else r.port0 == v.port0)
      && (if HitBy(es, 1) then AllReleased(r.port1) else r.port1 == v.port1)
    decreases |es|
  {
    hide HitBy, Observe, Valid;
    if es == [] {
      NoHits();
    } else {
      EventsRelease(v, es[..|es| - 1]);
      HitByLast(es, 0);
      HitByLast(es, 1);
      StruckValid(StruckBy(v, es[..|es| - 1]), es[|es| - 1]);
    }
  }

  lemma NoHits()
    ensures !HitBy([], 0) && !HitBy([], 1)
  {
  }

  lemma ResetFreeHitsNone(es: seq<Event>)
    ensures ResetFree(es) <==> !HitBy(es, 0) && !HitBy(es, 1)
  {
  }

  /** Events that leave all outputs driven were no resets, and then the CPLD saw nothing. */
  lemma {:induction false} EventsAtRest(v: View, es: seq<Event>)
    requires Valid(v)
    ensures var r := StruckBy(v, es);
      && (OutputsRight(r) <==> OutputsRight(v) && ResetFree(es))
      && (OutputsRight(r) ==> r.cpld == v.cpld && r.port0 == v.port0 && r.port1 == v.port1)
    decreases |es|
  {
    EventsRelease(v, es);
    ResetFreeHitsNone(es);
    if es != [] {
      var before := StruckBy(v, es[..|es| - 1]);
      EventsAtRest(v, es[..|es| - 1]);
      EventsRelease(v, es[..|es| - 1]);
      ObserveSees(before.cpld, before.cpld.seen);
      hide Observe, HitBy;
      if OutputsRight(StruckBy(v, es)) {
        assert forall e :: e in es[..|es| - 1] ==> e in es;
        assert es[|es| - 1] in es;
      }
    }
  }

  /** Resets between read and write-back that hit only what the write-back itself overwrites: on SDP port 1
      while STB1 is moved, on ESDP the port being written. */
  predicate Traceless(k: Kind, es: seq<Event>, o: OutPin) {
    match k
    case Sdp => !HitBy(es, 0) && (HitBy(es, 1) ==> o == STB1)
    case Esdp => if o == STB1 then !HitBy(es, 0) else !HitBy(es, 1)
  }

  lemma WrittenIsValid(k: Kind, v: View, captured: Port, o: OutPin)
    requires Valid(v) && (o == STB1 ==> !captured.lo.out && !captured.hi.out)
    ensures Valid(Written(k, v, captured, o))
  {
    hide Shown, Observe;
    ObserveSees(v.cpld, Pads(Written(k, v, captured, o)));
  }

  /** Exactly which events leave all directions right: none but wandering wires before the read, and no more
      than traceless resets before the write-back. */
  lemma MoveIsTraceless(k: Kind, v: View, es1: seq<Event>, es2: seq<Event>, o: OutPin, level: bool)
    requires Valid(v)
    ensures var r := Moved(k, v, es1, es2, o, level);
      Valid(r) && (OutputsRight(r) <==> OutputsRight(v) && ResetFree(es1) && Traceless(k, es2, o))
  {
    var v1 := StruckBy(v, es1);
    var v2 := StruckBy(v1, es2);
    var captured := MovedLine(SensedPort(v1, PortOf(o)), o, level);
    EventsRelease(v, es1);
    EventsAtRest(v, es1);
    EventsRelease(v1, es2);
    WrittenIsValid(k, v2, captured, o);
    hide StruckBy, HitBy, ResetFree, Shown, Observe;
    assert Moved(k, v, es1, es2, o, level) == Written(k, v2, captured, o);
  }

  // What the CPLD makes of wandering strobes.

  function ObservedBy(c: Cpld, path: seq<Levels>): Cpld
    decreases |path|
  {
    if path == [] then c else Observe(ObservedBy(c, path[..|path| - 1]), path[|path| - 1])
  }

  /** The levels after each event. */
  function Wires(v: View, es: seq<Event>): (path: seq<Levels>)
    ensures |path| == |es|
    decreases |es|
  {
    if es == [] then [] else Wires(v, es[..|es| - 1]) + [Pads(StruckBy(v, es))]
  }

  lemma {:induction false} EventsShow(v: View, es: seq<Event>)
    ensures StruckBy(v, es).cpld == ObservedBy(v.cpld, Wires(v, es))
    decreases |es|
  {
    hide Observe;
    if es != [] {
      EventsShow(v, es[..|es| - 1]);
      assert Wires(v, es)[..|es| - 1] == Wires(v, es[..|es| - 1]);
    }
  }

  /** Levels that differ at most in STB1, or at most in the pins of port 0. */
  predicate Aligned(o: OutPin, a: Levels, b: Levels) {
    if o == STB1 then b == a.(stb1 := b.stb1) else b.stb1 == a.stb1
  }

  lemma {:induction false} TracelessAligns(k: Kind, v: View, es: seq<Event>, o: OutPin)
    requires Valid(v) && OutputsRight(v) && Traceless(k, es, o)
    ensures forall j | 0 <= j < |es| :: Aligned(o, v.cpld.seen, Wires(v, es)[j])
    decreases |es|
  {
    if es != [] {
      var earlier := es[..|es| - 1];
      HitByLast(es, 0);
      HitByLast(es, 1);
      TracelessAligns(k, v, earlier, o);
      EventsRelease(v, es);
      hide HitBy, StruckBy;
      assert Aligned(o, v.cpld.seen, Pads(StruckBy(v, es)));
    }
  }

  function LastOf(from: Levels, path: seq<Levels>): Levels {
    if path == [] then from else path[|path| - 1]
  }

  /** How often STB1 rises along the path. */
  function Rises(from: Levels, path: seq<Levels>): nat
    decreases |path|
  {
    if path == [] then 0
    else
      var earlier := path[..|path| - 1];
      Rises(from, earlier) + if !LastOf(from, earlier).stb1 && path[|path| - 1].stb1 then 1 else 0
  }

  /** The number on the data pins at the last edge of STB0 that falls, or that rises, along the path. */
  function AtEdge(from: Levels, path: seq<Levels>, rising: bool, otherwise: int): int
    decreases |path|
  {
    if path == [] then otherwise
    else
      var earlier, n := path[..|path| - 1], path[|path| - 1];
      if LastOf(from, earlier).stb0 != n.stb0 && n.stb0 == rising then Pair(n.ado1, n.ado0)
      else AtEdge(from, earlier, rising, otherwise)
  }

  function Copies(c: Commit, n: nat): seq<Commit> {
    if n == 0 then [] else Copies(c, n - 1) + [c]
  }

  lemma StrobeStep(c: Cpld, n: Levels)
    requires Aligned(STB1, c.seen, n)
    ensures
      var done := Commit(4 * c.hi + c.lo, c.bsl, Data(c.seen));
      Observe(c, n) ==
        if !c.seen.stb0 && !c.seen.stb1 && n.stb1
        then c.(seen := n, mem := Store(c.mem, done), commits := c.commits + [done])
        else c.(seen := n)
  {
    hide Store, Pair;
  }

  lemma AlignedAcross(a: Levels, b: Levels, c: Levels)
    requires Aligned(STB1, a, b) && Aligned(STB1, a, c)
    ensures Aligned(STB1, b, c) && Data(b) == Data(a) && b.stb0 == a.stb0
  {
  }

  /** STB1 alone moves: each rise stores the same slice once more, unless STB0 is high. */
  lemma {:induction false} StrobesCommit(c: Cpld, path: seq<Levels>)
    requires forall j | 0 <= j < |path| :: Aligned(STB1, c.seen, path[j])
    ensures
      var count := if c.seen.stb0 then 0 else Rises(c.seen, path);
      var copies := Copies(Commit(4 * c.hi + c.lo, c.bsl, Data(c.seen)), count);
      ObservedBy(c, path) == c.(seen := LastOf(c.seen, path), mem := Replay(c.mem, copies),
                                commits := c.commits + copies)
    decreases |path|
  {
    hide Store, Pair, Data, Observe, Aligned, Copies, Replay;
    var done := Commit(4 * c.hi + c.lo, c.bsl, Data(c.seen));
    NoCopies(c.mem, done);
    if path != [] {
      var earlier, n := path[..|path| - 1], path[|path| - 1];
      StrobesCommit(c, earlier);
      SelfAligned(c.seen);
      AlignedAcross(c.seen, LastOf(c.seen, earlier), n);
      CopiesGrow(c.mem, done, Rises(c.seen, earlier));
      StrobeStep(ObservedBy(c, earlier), n);
    }
  }

  lemma NoCopies(m: Memory, c: Commit)
    ensures Copies(c, 0) == [] && Replay(m, []) == m
  {
  }

  lemma SelfAligned(n: Levels)
    ensures Aligned(STB1, n, n)
  {
  }

  lemma CopiesGrow(m: Memory, c: Commit, n: nat)
    ensures Copies(c, n + 1) == Copies(c, n) + [c]
    ensures Replay(m, Copies(c, n + 1)) == Store(Replay(m, Copies(c, n)), c)
  {
    hide Store;
    assert (Copies(c, n) + [c])[..|Copies(c, n)|] == Copies(c, n);
  }

  lemma {:induction false} CopiesCount(c: Commit, n: nat)
    ensures |Copies(c, n)| == n
  {
    if n > 0 {
      CopiesCount(c, n - 1);
    }
  }

  /** STB1 stays: each latch takes what the data pins show at the last edge of STB0 that hits it. */
  lemma {:induction false} EdgesLatch(c: Cpld, path: seq<Levels>)
    requires forall j | 0 <= j < |path| :: path[j].stb1 == c.seen.stb1
    ensures ObservedBy(c, path) == c.(
      seen := LastOf(c.seen, path),
      hi := if c.seen.stb1 then AtEdge(c.seen, path, false, c.hi) else c.hi,
      bsl := if c.seen.stb1 then c.bsl else AtEdge(c.seen, path, false, c.bsl),
      lo := if c.seen.stb1 then c.lo else AtEdge(c.seen, path, true, c.lo))
    decreases |path|
  {
    hide Pair, Store;
    if path != [] {
      EdgesLatch(c, path[..|path| - 1]);
    }
  }

  /** The wires take the levels of the path before they settle at n, and the CPLD ends up as if they had gone
      there at once. While STB1 is moved: STB0 is high, or STB1 rises no more often than it is meant
      to. While a pin of port 0 is moved: each latch would hold what it held anyway. */
  predicate Harmless(c: Cpld, path: seq<Levels>, o: OutPin, n: Levels) {
    var all := path + [n];
    if o == STB1 then c.seen.stb0 || Rises(c.seen, all) <= Rises(c.seen, [n])
    else if c.seen.stb1 then AtEdge(c.seen, all, false, c.hi) == AtEdge(c.seen, [n], false, c.hi)
    else
      && AtEdge(c.seen, all, false, c.bsl) == AtEdge(c.seen, [n], false, c.bsl)
      && AtEdge(c.seen, all, true, c.lo) == AtEdge(c.seen, [n], true, c.lo)
  }

  lemma {:induction false} RisesAtLeast(from: Levels, path: seq<Levels>)
    ensures !from.stb1 && LastOf(from, path).stb1 ==> Rises(from, path) >= 1
    decreases |path|
  {
    if path != [] {
      RisesAtLeast(from, path[..|path| - 1]);
    }
  }

  lemma RisesAtOnce(from: Levels, n: Levels)
    ensures Rises(from, [n]) == if !from.stb1 && n.stb1 then 1 else 0
  {
    assert [n][..0] == [];
  }

  lemma ObservedOnce(c: Cpld, n: Levels)
    ensures ObservedBy(c, [n]) == Observe(c, n)
  {
    assert [n][..0] == [];
  }

  lemma PathExactly(c: Cpld, path: seq<Levels>, o: OutPin, n: Levels)
    requires (forall j | 0 <= j < |path| :: Aligned(o, c.seen, path[j])) && Aligned(o, c.seen, n)
    ensures ObservedBy(c, path + [n]) == Observe(c, n) <==> Harmless(c, path, o, n)
  {
    hide Observe, ObservedBy, Rises, AtEdge, Pair, Store, Replay, Data;
    var all := path + [n];
    assert forall j | 0 <= j < |all| :: Aligned(o, c.seen, all[j]);
    ObservedOnce(c, n);
    if o == STB1 {
      StrobesCommit(c, all);
      StrobesCommit(c, [n]);
      RisesAtLeast(c.seen, all);
      RisesAtOnce(c.seen, n);
      var done := Commit(4 * c.hi + c.lo, c.bsl, Data(c.seen));
      CopiesCount(done, Rises(c.seen, all));
      CopiesCount(done, Rises(c.seen, [n]));
      hide Copies;
    } else {
      EdgesLatch(c, all);
      EdgesLatch(c, [n]);
    }
  }

  // Moves.

  /** Events between read and write-back that leave all directions right and mislead the CPLD. */
  predicate Insidious(k: Kind, v: View, es: seq<Event>, o: OutPin, level: bool) {
    OutputsRight(v) && Traceless(k, es, o) && !Harmless(v.cpld, Wires(v, es), o, WithLevel(v.cpld.seen, o, level))
  }

  lemma DriveAligns(n: Levels, o: OutPin, level: bool)
    ensures Aligned(o, n, WithLevel(n, o, level))
  {
  }

  /** The levels once all outputs are driven again. */
  lemma WrittenPads(k: Kind, v1: View, v2: View, o: OutPin, level: bool)
    requires v1.cpld.seen == Pads(v1) && OutputsRight(v1)
    requires o == STB1 || v2.port1 == v1.port1
    requires (k.Esdp? && o != STB1) || v2.port0 == v1.port0
    ensures var r := Written(k, v2, MovedLine(SensedPort(v1, PortOf(o)), o, level), o);
      r.cpld == Observe(v2.cpld, WithLevel(v1.cpld.seen, o, level))
  {
    hide Observe, Shown;
    var captured := MovedLine(SensedPort(v1, PortOf(o)), o, level);
    match o
    case STB1 => assert Pads(Written(k, v2, captured, o)) == WithLevel(v1.cpld.seen, o, level);
    case STB0 => assert Pads(Written(k, v2, captured, o)) == WithLevel(v1.cpld.seen, o, level);
    case ADO0 => assert Pads(Written(k, v2, captured, o)) == WithLevel(v1.cpld.seen, o, level);
    case ADO1 => assert Pads(Written(k, v2, captured, o)) == WithLevel(v1.cpld.seen, o, level);
  }

  lemma ObservedThen(c: Cpld, path: seq<Levels>, n: Levels)
    ensures ObservedBy(c, path + [n]) == Observe(ObservedBy(c, path), n)
  {
    assert (path + [n])[..|path|] == path;
  }

  lemma WrittenShows(k: Kind, v1: View, es: seq<Event>, o: OutPin, level: bool)
    requires Valid(v1) && OutputsRight(v1) && Traceless(k, es, o)
    ensures var r := Moved(k, v1, [], es, o, level);
      r.cpld == ObservedBy(v1.cpld, Wires(v1, es) + [WithLevel(v1.cpld.seen, o, level)])
  {
    EventsRelease(v1, es);
    EventsShow(v1, es);
    ObservedThen(v1.cpld, Wires(v1, es), WithLevel(v1.cpld.seen, o, level));
    assert StruckBy(v1, []) == v1;
    hide HitBy, Observe, ObservedBy, Shown, Wires, Written, StruckBy, WithLevel, Pads;
    WrittenPads(k, v1, StruckBy(v1, es), o, level);
  }

  /** If all outputs are driven after a move, the CPLD saw the pin move as intended exactly if the events before
      the write-back were not insidious. */
  lemma MoveExactly(k: Kind, v: View, es1: seq<Event>, es2: seq<Event>, o: OutPin, level: bool)
    requires Valid(v)
    ensures var r := Moved(k, v, es1, es2, o, level);
      OutputsRight(r) ==> (r.cpld == Drive(v.cpld, o, level) <==> !Insidious(k, StruckBy(v, es1), es2, o, level))
  {
    MoveIsTraceless(k, v, es1, es2, o, level);
    var v1 := StruckBy(v, es1);
    EventsAtRest(v, es1);
    EventsRelease(v, es1);
    assert StruckBy(v1, []) == v1;
    assert Moved(k, v1, [], es2, o, level) == Moved(k, v, es1, es2, o, level);
    hide Moved, StruckBy, Traceless, ResetFree, Harmless, Observe, Wires, ObservedBy, WithLevel;
    if OutputsRight(Moved(k, v, es1, es2, o, level)) {
      WrittenShows(k, v1, es2, o, level);
      TracelessAligns(k, v1, es2, o);
      DriveAligns(v1.cpld.seen, o, level);
      PathExactly(v1.cpld, Wires(v1, es2), o, WithLevel(v1.cpld.seen, o, level));
    }
  }

  lemma NothingIsInsidious(k: Kind, v: View, o: OutPin, level: bool)
    ensures !Insidious(k, v, [], o, level)
  {
    assert [] + [WithLevel(v.cpld.seen, o, level)] == [WithLevel(v.cpld.seen, o, level)];
  }

  lemma RegistersStay(k: Kind, v: View, o: OutPin, level: bool)
    requires Valid(v)
    ensures Foreign(Moved(k, v, [], [], o, level)) == Foreign(v)
  {
    hide Shown, Observe;
  }

  /** If all outputs are driven after a move, they were before it, and unless the events before the write-back
      were insidious the CPLD saw the pin move as intended: any other reset shows in a direction bit. Without
      events the directions and the register bits of other purposes stay. */
  lemma MoveDetects(k: Kind, v: View, es1: seq<Event>, es2: seq<Event>, o: OutPin, level: bool)
    requires Valid(v)
    ensures var r := Moved(k, v, es1, es2, o, level);
      && Valid(r)
      && (OutputsRight(r) ==> OutputsRight(v))
      && (OutputsRight(r) && !Insidious(k, StruckBy(v, es1), es2, o, level) ==> r.cpld == Drive(v.cpld, o, level))
      && (es1 == [] && es2 == [] ==>
            OutputsRight(r) == OutputsRight(v) && Foreign(r) == Foreign(v)
            && !Insidious(k, StruckBy(v, es1), es2, o, level))
  {
    MoveIsTraceless(k, v, es1, es2, o, level);
    MoveExactly(k, v, es1, es2, o, level);
    RegistersStay(k, v, o, level);
    NothingIsInsidious(k, StruckBy(v, es1), o, level);
    NoHits();
    hide Moved, Insidious, StruckBy, HitBy;
  }

  /** Insidious events do go unnoticed and do mislead the CPLD. */
  lemma InsidiousMisleads(k: Kind, v: View, es: seq<Event>, o: OutPin, level: bool)
    requires Valid(v) && Insidious(k, v, es, o, level)
    ensures var r := Moved(k, v, [], es, o, level);
      OutputsRight(r) && r.cpld != Drive(v.cpld, o, level)
  {
    assert StruckBy(v, []) == v;
    MoveIsTraceless(k, v, [], es, o, level);
    MoveExactly(k, v, [], es, o, level);
  }

  // One event at a time.

  /** A single pulse on STB1 cannot do harm: the level moved to is new anyway, or STB0 is high. */
  predicate GlitchSafe(c: Cpld, o: OutPin, level: bool) {
    o == STB1 ==> c.seen.stb1 != level || c.seen.stb0
  }

  lemma RisesInTwo(from: Levels, a: Levels, b: Levels)
    ensures Rises(from, [a, b]) == (if !from.stb1 && a.stb1 then 1 else 0) + (if !a.stb1 && b.stb1 then 1 else 0)
  {
    assert [a, b][..1] == [a];
    RisesAtOnce(from, a);
  }

  /** STB1 floating once, before it takes its level, is harmless exactly if it is so for any float or floats
      at that level. */
  lemma GlitchExactly(c: Cpld, float: bool, level: bool)
    ensures Harmless(c, [c.seen.(stb1 := float)], STB1, WithLevel(c.seen, STB1, level))
      <==> GlitchSafe(c, STB1, level) || float == level
  {
    var a, b := c.seen.(stb1 := float), WithLevel(c.seen, STB1, level);
    assert [a] + [b] == [a, b];
    RisesInTwo(c.seen, a, b);
    RisesAtOnce(c.seen, b);
    hide Rises;
  }

  lemma OneEvent(v: View, e: Event)
    ensures StruckBy(v, [e]) == Struck(v, e) && Wires(v, [e]) == [Pads(Struck(v, e))]
  {
    hide Struck, Pads;
    assert [e][..0] == [] && Wires(v, []) == [];
    assert StruckBy(v, []) == v;
  }

  /** So a single event is insidious only on ESDP, as a reset of port 0, as long as the driver moves STB1 only
      in ways that are safe for single pulses. */
  lemma OneEventIsTame(k: Kind, v: View, es: seq<Event>, o: OutPin, level: bool)
    requires Valid(v) && |es| <= 1 && GlitchSafe(v.cpld, o, level) && (k.Esdp? ==> !HitBy(es, 0))
    ensures !Insidious(k, v, es, o, level)
  {
    if es == [] {
      NothingIsInsidious(k, v, o, level);
    } else if OutputsRight(v) && Traceless(k, es, o) {
      assert es == [es[0]];
      OneEvent(v, es[0]);
      TracelessAligns(k, v, es, o);
      var a, b := Wires(v, es)[0], WithLevel(v.cpld.seen, o, level);
      assert Aligned(o, v.cpld.seen, a);
      if o == STB1 {
        GlitchExactly(v.cpld, a.stb1, level);
      } else {
        EventsRelease(v, es);
        ResetFreeHitsNone(es);
        EventsAtRest(v, es);
        hide HitBy, StruckBy, Observe;
        assert a == v.cpld.seen;
        StillIsHarmless(v.cpld, o, b);
      }
    }
  }

  lemma StillEdges(from: Levels, n: Levels, rising: bool, otherwise: int)
    ensures AtEdge(from, [from, n], rising, otherwise) == AtEdge(from, [n], rising, otherwise)
  {
    hide Pair;
    assert [from, n][..1] == [from] && [from][..0] == [] && [n][..0] == [];
    assert AtEdge(from, [from], rising, otherwise) == otherwise;
  }

  lemma StillIsHarmless(c: Cpld, o: OutPin, n: Levels)
    requires o != STB1
    ensures Harmless(c, [c.seen], o, n)
  {
    hide AtEdge;
    assert [c.seen] + [n] == [c.seen, n];
    StillEdges(c.seen, n, false, c.hi);
    StillEdges(c.seen, n, false, c.bsl);
    StillEdges(c.seen, n, true, c.lo);
  }

  /** Two events are another matter, on SDP too: with STB0 low, two port 1 resets between the read and the write-back
      of a lowering of STB1, one leaving it low and the next one high, store the slice once more and leave
      no trace. */
  lemma TwoResetsCommit(k: Kind, v: View, after1: Port, float1: Levels, after2: Port, float2: Levels)
    requires Valid(v) && OutputsRight(v) && !v.cpld.seen.stb0 && v.cpld.seen.stb1 && !float1.stb1 && float2.stb1
    ensures
      var es := [Reset(1, after1, float1), Reset(1, after2, float2)];
      var r := Moved(k, v, [], es, STB1, false);
      && OutputsRight(r)
      && r.cpld.commits == v.cpld.commits + [Commit(4 * v.cpld.hi + v.cpld.lo, v.cpld.bsl, Data(v.cpld.seen))]
  {
    var e1, e2 := Reset(1, after1, float1), Reset(1, after2, float2);
    var es := [e1, e2];
    TwoEvents(v, e1, e2);
    PulseShows(v, e1, e2);
    NeverHit(es, 0);
    hide Struck, Pads, Observe, HitBy, Data, Wires, ObservedBy;
    assert StruckBy(v, []) == v && ResetFree([]);
    hide Moved, StruckBy, OutputsRight;
    MoveIsTraceless(k, v, [], es, STB1, false);
    WrittenShows(k, v, es, STB1, false);
    PulseCommits(v.cpld);
  }

  /** A pulse on STB1 while it is lowered. */
  lemma PulseCommits(c: Cpld)
    requires !c.seen.stb0 && c.seen.stb1
    ensures
      var path := [c.seen.(stb1 := false), c.seen.(stb1 := true)] + [WithLevel(c.seen, STB1, false)];
      ObservedBy(c, path).commits == c.commits + [Commit(4 * c.hi + c.lo, c.bsl, Data(c.seen))]
  {
    hide ObservedBy, Data, Replay, Store;
    var a, b := c.seen.(stb1 := false), c.seen.(stb1 := true);
    var path := [a, b] + [WithLevel(c.seen, STB1, false)];
    assert path[..2] == [a, b];
    StrobesCommit(c, path);
    RisesInTwo(c.seen, a, b);
    assert Rises(c.seen, path) == 1;
    var done := Commit(4 * c.hi + c.lo, c.bsl, Data(c.seen));
    NoCopies(c.mem, done);
    CopiesGrow(c.mem, done, 0);
  }

  lemma NeverHit(es: seq<Event>, port: int)
    requires forall e :: e in es && e.Reset? ==> (e.port == 0) != (port == 0)
    ensures !HitBy(es, port)
  {
  }

  lemma TwoEvents(v: View, e1: Event, e2: Event)
    ensures StruckBy(v, [e1, e2]) == Struck(Struck(v, e1), e2)
    ensures Wires(v, [e1, e2]) == [Pads(Struck(v, e1)), Pads(Struck(Struck(v, e1), e2))]
  {
    hide Struck, Pads;
    assert [e1, e2][..1] == [e1];
    OneEvent(v, e1);
  }

  lemma PulseShows(v: View, e1: Event, e2: Event)
    requires Valid(v) && OutputsRight(v) && e1.Reset? && e2.Reset? && e1.port == 1 && e2.port == 1
    ensures Pads(Struck(v, e1)) == v.cpld.seen.(stb1 := e1.float.stb1)
    ensures Pads(Struck(Struck(v, e1), e2)) == v.cpld.seen.(stb1 := e2.float.stb1)
  {
    hide Observe;
  }

  // A repair by another thread: after cpld_sdp_kick has given up the lock.

  /** The register of a pin as its repair writes it: with that pin's direction right, on ESDP with those of
      all pins of the port. */
  function Mended(k: Kind, captured: Port, o: OutPin): Port {
    if k.Esdp? && o != STB1
    then captured.(stb := captured.stb.(out := true), lo := captured.lo.(out := true), hi := captured.hi.(out := true))
    else match o
      case STB0 => captured.(stb := captured.stb.(out := true))
      case STB1 => captured.(stb := captured.stb.(out := true), lo := captured.lo.(out := false),
                             hi := captured.hi.(out := false))
      case ADO0 => captured.(lo := captured.lo.(out := true))
      case ADO1 => captured.(hi := captured.hi.(out := true))
  }

  /** The register was read at u and is written at v. */
  function Mend(k: Kind, u: View, v: View, o: OutPin): View {
    Written(k, v, Mended(k, SensedPort(u, PortOf(o)), o), o)
  }

  /** What was read then is what the outputs of that register are at now, and nothing else in it was undriven. */
  predicate Current(k: Kind, u: View, v: View, o: OutPin) {
    if o == STB1 then u.port1.stb.data == v.port1.stb.data
    else if k.Esdp? then
      u.port0.stb.data == v.port0.stb.data && u.port0.lo.data == v.port0.lo.data && u.port0.hi.data == v.port0.hi.data
    else if o == STB0 then u.port0.stb.data == v.port0.stb.data
    else
      && u.port0.lo.data == v.port0.lo.data && u.port0.hi.data == v.port0.hi.data
      && (o == ADO0 ==> u.port0.hi.out) && (o == ADO1 ==> u.port0.lo.out)
  }

  /** When such a write is harmless to a thread in the middle of a transfer: the outputs stay driven and the CPLD
      sees nothing exactly if the register held then what it holds now. */
  lemma StaleMendExactly(k: Kind, u: View, v: View, o: OutPin)
    requires Valid(u) && Valid(v) && OutputsRight(v)
    ensures var r := Mend(k, u, v, o);
      (OutputsRight(r) && r.cpld == v.cpld) <==> Current(k, u, v, o)
  {
    var r := Mend(k, u, v, o);
    ObserveSees(v.cpld, Pads(r));
    ObserveSame(v.cpld);
    hide Observe, Shown;
    if OutputsRight(r) {
      assert r.cpld.seen == Pads(r);
      assert r.cpld == Observe(v.cpld, Pads(r));
    }
  }

  lemma ObserveSame(c: Cpld)
    ensures Observe(c, c.seen) == c
  {
  }

  /** A stale strobe: STB1, low by now, is written back high and stores a slice that nobody sent. */
  lemma StaleStrobeCommits(k: Kind, u: View, v: View)
    requires Valid(u) && Valid(v) && OutputsRight(v) && !v.cpld.seen.stb0 && !v.cpld.seen.stb1 && u.port1.stb.data
    ensures var r := Mend(k, u, v, STB1);
      && OutputsRight(r)
      && r.cpld.commits == v.cpld.commits + [Commit(4 * v.cpld.hi + v.cpld.lo, v.cpld.bsl, Data(v.cpld.seen))]
  {
    hide Shown, Store;
  }

  /** The registers of a port that the repair writes, by a pin of each. */
  function Rows(k: Kind, port: int): seq<OutPin> {
    if port == 1 then [STB1] else if k.Esdp? then [ADO0] else [ADO0, ADO1, STB0]
  }

  function MendAll(k: Kind, v: View, rows: seq<OutPin>): View
    decreases |rows|
  {
    if rows == [] then v
    else
      var before := MendAll(k, v, rows[..|rows| - 1]);
      Mend(k, before, before, rows[|rows| - 1])
  }

  /** The levels the wires take from a reset on until the port is repaired. */
  function Mending(k: Kind, v: View, rows: seq<OutPin>): (path: seq<Levels>)
    ensures |path| == |rows| + 1
    decreases |rows|
  {
    if rows == [] then [Pads(v)]
    else Mending(k, v, rows[..|rows| - 1]) + [Pads(MendAll(k, v, rows))]
  }

  /** The wires come back to their levels, and on the way STB1 does not rise with STB0 low, or no latch takes
      anything new. */
  predicate Undone(c: Cpld, path: seq<Levels>, port: int) {
    && LastOf(c.seen, path) == c.seen
    && (if port == 1 then c.seen.stb0 || Rises(c.seen, path) == 0
        else if c.seen.stb1 then AtEdge(c.seen, path, false, c.hi) == c.hi
        else AtEdge(c.seen, path, false, c.bsl) == c.bsl && AtEdge(c.seen, path, true, c.lo) == c.lo)
  }

  lemma MendKeepsOthers(k: Kind, v: View, o: OutPin)
    ensures var r := Mend(k, v, v, o);
      && r.float == v.float && r.cpld == Observe(v.cpld, Pads(r))
      && (o == STB1 ==> r.port0 == v.port0) && (o != STB1 ==> r.port1 == v.port1)
  {
    hide Observe, Shown;
  }

  lemma {:induction false} MendingShows(k: Kind, c: Cpld, v: View, rows: seq<OutPin>)
    requires v.cpld == Observe(c, Pads(v))
    ensures MendAll(k, v, rows).cpld == ObservedBy(c, Mending(k, v, rows))
    decreases |rows|
  {
    hide Observe, Mend, Pads;
    if rows == [] {
      ObservedOnce(c, Pads(v));
    } else {
      var earlier := rows[..|rows| - 1];
      MendingShows(k, c, v, earlier);
      MendKeepsOthers(k, MendAll(k, v, earlier), rows[|rows| - 1]);
      ObservedThen(c, Mending(k, v, earlier), Pads(MendAll(k, v, rows)));
    }
  }

  /** Repairing one port leaves the other one, and what its wires show. */
  lemma {:induction false} MendingIsApart(k: Kind, v: View, rows: seq<OutPin>, port: int)
    requires forall o :: o in rows ==> (o == STB1 <==> port == 1)
    ensures var r := MendAll(k, v, rows);
      r.float == v.float && (port == 1 ==> r.port0 == v.port0) && (port != 1 ==> r.port1 == v.port1)
    ensures forall j | 0 <= j < |Mending(k, v, rows)| ::
      var n := Mending(k, v, rows)[j];
      if port == 1 then Aligned(STB1, Pads(v), n) else n.stb1 == Pads(v).stb1
    decreases |rows|
  {
    hide Mend, Mended;
    if rows != [] {
      var earlier := rows[..|rows| - 1];
      assert forall o :: o in earlier ==> o in rows;
      assert rows[|rows| - 1] in rows;
      MendingIsApart(k, v, earlier, port);
      MendKeepsOthers(k, MendAll(k, v, earlier), rows[|rows| - 1]);
    }
  }

  /** A reset of a port that a foreign repair has undone leaves no trace, and the thread in the middle of a transfer
      goes on; the CPLD has not noticed anything exactly if the wires came back without harm. */
  lemma HiddenResetExactly(k: Kind, v: View, port: int, after: Port, float: Levels)
    requires Valid(v) && OutputsRight(v) && (port == 0 || port == 1)
    ensures
      var struck := Struck(v, Reset(port, after, float));
      var r := MendAll(k, struck, Rows(k, port));
      OutputsRight(r) && (r.cpld == v.cpld <==> Undone(v.cpld, Mending(k, struck, Rows(k, port)), port))
  {
    var struck := Struck(v, Reset(port, after, float));
    var path := Mending(k, struck, Rows(k, port));
    RowsRight(k, struck, port);
    StruckAligned(v, port, after, float);
    MendingIsApart(k, struck, Rows(k, port), port);
    MendingShows(k, v.cpld, struck, Rows(k, port));
    hide Rows, Struck, MendAll, Mending, ObservedBy, Pads, OutputsRight;
    PathUndone(v.cpld, path, port);
  }

  /** A reset moves only the wires of its port. */
  lemma StruckAligned(v: View, port: int, after: Port, float: Levels)
    requires Valid(v) && OutputsRight(v) && (port == 0 || port == 1)
    ensures var r := Struck(v, Reset(port, after, float));
      && r.cpld == Observe(v.cpld, Pads(r))
      && (if port == 1 then forall n | Aligned(STB1, Pads(r), n) :: Aligned(STB1, v.cpld.seen, n)
          else Pads(r).stb1 == v.cpld.seen.stb1)
  {
    hide Observe;
  }

  lemma RowsRight(k: Kind, v: View, port: int)
    requires (port == 1 && v.port0.stb.out && v.port0.lo.out && v.port0.hi.out) || (port == 0 && v.port1.stb.out)
    ensures OutputsRight(MendAll(k, v, Rows(k, port)))
    ensures forall o :: o in Rows(k, port) ==> (o == STB1 <==> port == 1)
  {
    hide Observe, Shown;
    var rows := Rows(k, port);
    assert MendAll(k, v, []) == v;
    if |rows| == 1 {
      assert rows[..0] == [];
      assert MendAll(k, v, rows) == Mend(k, v, v, rows[0]);
    } else {
      assert rows[..2] == [ADO0, ADO1] && rows[..2][..1] == [ADO0] && [ADO0][..0] == [];
      var v1 := Mend(k, v, v, ADO0);
      assert MendAll(k, v, [ADO0]) == v1;
      var v2 := Mend(k, v1, v1, ADO1);
      assert MendAll(k, v, [ADO0, ADO1]) == v2;
      assert MendAll(k, v, rows) == Mend(k, v2, v2, STB0);
    }
  }

  lemma PathUndone(c: Cpld, path: seq<Levels>, port: int)
    requires
      if port == 1 then forall j | 0 <= j < |path| :: Aligned(STB1, c.seen, path[j])
      else forall j | 0 <= j < |path| :: path[j].stb1 == c.seen.stb1
    ensures ObservedBy(c, path) == c <==> Undone(c, path, port)
  {
    hide ObservedBy, Rises, AtEdge, Replay, Data;
    if port == 1 {
      StrobesCommit(c, path);
      var done := Commit(4 * c.hi + c.lo, c.bsl, Data(c.seen));
      CopiesCount(done, Rises(c.seen, path));
      NoCopies(c.mem, done);
      hide Copies;
    } else {
      EdgesLatch(c, path);
    }
  }

  /** The device after an ESDP transfer whose slice index is being presented is struck between the read and
      the write-back of its first pin movement; everything after that is calm. */
  function TornTransfer(v: View, after: Port, float: Levels, bsl: bv8, dat: bv8): Cpld {
    var torn := Moved(Esdp, v, [], [Reset(0, after, float)], ADO1, bsl & 2 != 0);
    StrobeData(Drive(Drive(torn.cpld, ADO0, bsl & 1 != 0), STB0, false), dat)
  }

  lemma TornEsdpMove(v: View, after: Port, float: Levels, level: bool)
    requires Valid(v) && OutputsRight(v) && v.cpld.seen.stb0 && !v.cpld.seen.stb1 && !float.stb0
    ensures var r := Moved(Esdp, v, [], [Reset(0, after, float)], ADO1, level);
      && OutputsRight(r)
      && r.cpld.seen == v.cpld.seen.(ado1 := level)
      && r.cpld.hi == v.cpld.hi && r.cpld.lo == Pair(level, v.cpld.seen.ado0)
      && r.cpld.mem == v.cpld.mem && r.cpld.commits == v.cpld.commits
  {
    OneEvent(v, Reset(0, after, float));
    assert StruckBy(v, []) == v;
    hide StruckBy;
    var v2 := Struck(v, Reset(0, after, float));
    assert v2.cpld == v.cpld.(seen := Pads(v2), bsl := Pair(Pads(v2).ado1, Pads(v2).ado0));
  }

  /** What a single insidious reset can do to a whole transfer. After the address is latched, a port 0 reset
      that lets STB0 float low just before the write-back of the next pin movement leaves every
      direction right, so the retry loop does not notice it, but makes the CPLD take a slice bit for
      an address bit: the data goes to the addressed register exactly if the two bits agree. */
  lemma TornEsdpTransferMisses(v: View, after: Port, float: Levels, addr: bv8, bsl: bv8, dat: bv8)
    requires Valid(v) && OutputsRight(v) && v.cpld.seen.stb0 && !v.cpld.seen.stb1 && !float.stb0
    requires v.cpld.lo == Pair(addr & 2 != 0, addr & 1 != 0) && v.cpld.seen.ado0 == (addr & 1 != 0)
    ensures OutputsRight(Moved(Esdp, v, [], [Reset(0, after, float)], ADO1, bsl & 2 != 0))
    ensures var c := TornTransfer(v, after, float, bsl, dat);
      var at := 4 * v.cpld.hi + Pair(bsl & 2 != 0, addr & 1 != 0);
      && c.commits == v.cpld.commits + [Commit(at, Index(bsl), dat & 3)]
      && (at == 4 * v.cpld.hi + v.cpld.lo <==> (bsl & 2 != 0) == (addr & 2 != 0))
  {
    hide Moved, OutputsRight;
    TornEsdpMove(v, after, float, bsl & 2 != 0);
    var torn := Moved(Esdp, v, [], [Reset(0, after, float)], ADO1, bsl & 2 != 0).cpld;
    var c1 := Drive(torn, ADO0, bsl & 1 != 0);
    assert c1 == torn.(seen := torn.seen.(ado0 := bsl & 1 != 0));
    var c2 := Drive(c1, STB0, false);
    assert c2 == c1.(seen := c1.seen.(stb0 := false), bsl := Index(bsl));
    StrobeCommits(c2, dat);
  }
}
