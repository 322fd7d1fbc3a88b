/** module/cpld_sdp.c and module/cpld_esdp.c: register accesses bit-banged through NIC registers. */
module PinTransport {
  import opened CpldDevice
  import opened PinView
  import opened Words
  import DirectionTable

  datatype Register = CtrlReg | CtrlExtReg | EsdpReg

  datatype Pin = Out(out: OutPin) | DI0 | DI1

  /** data and dir are the bit positions of the pin's data and direction masks. */
  datatype PinInfo = PinInfo(port: int, reg: Register, data: int, dir: int, output: bool)

  /** cpld_pins[]: module/cpld_sdp.c:17-24 and module/cpld_esdp.c:20-42. */
  function Info(k: Kind, p: Pin): PinInfo {
    match k
    case Sdp => (
      match p
      case Out(ADO0) => PinInfo(0, CtrlExtReg, 6, 10, true)
      case Out(ADO1) => PinInfo(0, CtrlExtReg, 7, 11, true)
      case Out(STB0) => PinInfo(0, CtrlReg, 18, 22, true)
      case Out(STB1) => PinInfo(1, CtrlReg, 18, 22, true)
      case DI0 => PinInfo(1, CtrlExtReg, 6, 10, false)
      case DI1 => PinInfo(1, CtrlExtReg, 7, 11, false))
    case Esdp => (
      match p
      case Out(ADO0) => PinInfo(0, EsdpReg, 2, 10, true)
      case Out(ADO1) => PinInfo(0, EsdpReg, 3, 11, true)
      case Out(STB0) => PinInfo(0, EsdpReg, 0, 8, true)
      case Out(STB1) => PinInfo(1, EsdpReg, 0, 8, true)
      case DI0 => PinInfo(1, EsdpReg, 2, 10, false)
      case DI1 => PinInfo(1, EsdpReg, 3, 11, false))
  }

  function RegOf(n: Nic, reg: Register): Word {
    match reg
    case CtrlReg => n.ctrl
    case CtrlExtReg => n.ctrlExt
    case EsdpReg => n.esdp
  }

  function WithReg(n: Nic, reg: Register, val: Word): Nic {
    match reg
    case CtrlReg => n.(ctrl := val)
    case CtrlExtReg => n.(ctrlExt := val)
    case EsdpReg => n.(esdp := val)
  }

  const CTRL_PINS: Word := {18, 22}
  const CTRL_EXT_PINS: Word := {6, 7, 10, 11}
  const ESDP_PINS: Word := {0, 2, 3, 8, 10, 11}

  function LineAt(val: Word, data: int, dir: int): Line {
    Line(data in val, dir in val)
  }

  /** The pins a port's registers hold. Rows of a table in the same register position on the two
      ports share their masks, so one decoding serves both ports. */
  function Decode(k: Kind, n: Nic): Port {
    match k
    case Sdp => Port(LineAt(n.ctrl, 18, 22), LineAt(n.ctrlExt, 6, 10), LineAt(n.ctrlExt, 7, 11),
                     Nic(n.ctrl - CTRL_PINS, n.ctrlExt - CTRL_EXT_PINS, n.esdp))
    case Esdp => Port(LineAt(n.esdp, 0, 8), LineAt(n.esdp, 2, 10), LineAt(n.esdp, 3, 11),
                      Nic(n.ctrl, n.ctrlExt, n.esdp - ESDP_PINS))
  }

  /** The register word val holds the lines that captured has in the register of pin o. */
  predicate Holds(k: Kind, val: Word, captured: Port, o: OutPin) {
    match k
    case Esdp =>
      && captured.stb == LineAt(val, 0, 8) && captured.lo == LineAt(val, 2, 10)
      && captured.hi == LineAt(val, 3, 11) && captured.foreign.esdp == val - ESDP_PINS
    case Sdp =>
      if o == STB0 || o == STB1 then captured.stb == LineAt(val, 18, 22) && captured.foreign.ctrl == val - CTRL_PINS
      else && captured.lo == LineAt(val, 6, 10) && captured.hi == LineAt(val, 7, 11)
           && captured.foreign.ctrlExt == val - CTRL_EXT_PINS
  }

  lemma MoveBitMoves(k: Kind, val: Word, captured: Port, o: OutPin, level: bool)
    requires Holds(k, val, captured, o)
    ensures Holds(k, MoveBit(val, Info(k, Out(o)).data, level), MovedLine(captured, o, level), o)
  {
  }

  lemma WithRegWrites(k: Kind, n: Nic, val: Word, captured: Port, o: OutPin)
    requires Holds(k, val, captured, o)
    ensures Decode(k, WithReg(n, Info(k, Out(o)).reg, val)) == WriteBack(k, Decode(k, n), captured, o)
  {
  }

  /** Everything ioread32 and iowrite32 reach through hw_ctrl[hw][0] and hw_ctrl[hw][1], the levels
      of pins nobody drives, and the CPLD behind the pins. */
  datatype Board = Board(nic0: Nic, nic1: Nic, float: Levels, cpld: Cpld)

  /** A reset of one port's NIC, which leaves its registers with any contents except that the pins of the link
      are inputs, or undriven wires changing their levels. */
  datatype Strike = ResetOf(port: int, after: Nic, float: Levels) | WanderTo(float: Levels)

  /** What happens between two register accesses of the driver. */
  type Gap = seq<Strike>

  function ViewOf(k: Kind, b: Board): View {
    View(Decode(k, b.nic0), Decode(k, b.nic1), b.float, b.cpld)
  }

  function AfterReset(k: Kind, n: Nic): Nic {
    match k
    case Sdp => n.(ctrl := n.ctrl - {22}, ctrlExt := n.ctrlExt - {10, 11})
    case Esdp => n.(esdp := n.esdp - {8, 10, 11})
  }

  function EventOf(k: Kind, s: Strike): Event {
    match s
    case ResetOf(port, after, float) => Reset(port, Decode(k, after), float)
    case WanderTo(float) => Wander(float)
  }

  function EventsOf(k: Kind, gap: Gap): (es: seq<Event>)
    ensures |es| == |gap| && forall j | 0 <= j < |gap| :: es[j] == EventOf(k, gap[j])
  {
    seq(|gap|, j requires 0 <= j < |gap| => EventOf(k, gap[j]))
  }

  function Observed(k: Kind, b: Board): Board {
    b.(cpld := Observe(b.cpld, Pads(ViewOf(k, b))))
  }

  function HitOnce(k: Kind, b: Board, s: Strike): Board {
    match s
    case ResetOf(port, after, float) =>
      Observed(k, if port == 0 then b.(nic0 := AfterReset(k, after), float := float)
                  else b.(nic1 := AfterReset(k, after), float := float))
    case WanderTo(float) => Observed(k, b.(float := float))
  }

  function Hit(k: Kind, b: Board, gap: Gap): Board
    decreases |gap|
  {
    if gap == [] then b else HitOnce(k, Hit(k, b, gap[..|gap| - 1]), gap[|gap| - 1])
  }

  function Stored(b: Board, port: int, reg: Register): Word {
    RegOf(if port == 0 then b.nic0 else b.nic1, reg)
  }

  function SenseBit(k: Kind, p: Pin, level: bool, port: int, reg: Register, val: Word): Word {
    var i := Info(k, p);
    if i.port == port && i.reg == reg && i.dir !in val then MoveBit(val, i.data, level) else val
  }

  /** The value ioread32 returns: stored bits, except that an input DI pin reads the CPLD's level. */
  function Sense(k: Kind, b: Board, port: int, reg: Register): Word {
    var shown := Shown(b.cpld);
    SenseBit(k, DI1, shown & 2 != 0, port, reg, SenseBit(k, DI0, shown & 1 != 0, port, reg, Stored(b, port, reg)))
  }

  function Poke(k: Kind, b: Board, port: int, reg: Register, val: Word): Board {
    Observed(k, if port == 0 then b.(nic0 := WithReg(b.nic0, reg, val)) else b.(nic1 := WithReg(b.nic1, reg, val)))
  }

  lemma HitOnceIsStruck(k: Kind, b: Board, s: Strike)
    ensures ViewOf(k, HitOnce(k, b, s)) == Struck(ViewOf(k, b), EventOf(k, s))
  {
    hide Observe;
    if s.ResetOf? {
      assert Decode(k, AfterReset(k, s.after)) == Released(Decode(k, s.after)) by { ResetReleases(k, s.after); }
    }
  }

  lemma HitCalm(k: Kind, b: Board)
    ensures Hit(k, b, []) == b
  {
  }

  lemma {:induction false} HitIsStruck(k: Kind, b: Board, gap: Gap)
    ensures ViewOf(k, Hit(k, b, gap)) == StruckBy(ViewOf(k, b), EventsOf(k, gap))
    decreases |gap|
  {
    hide ViewOf, HitOnce, Struck, EventOf;
    if gap != [] {
      HitIsStruck(k, b, gap[..|gap| - 1]);
      HitOnceIsStruck(k, Hit(k, b, gap[..|gap| - 1]), gap[|gap| - 1]);
      assert EventsOf(k, gap)[..|gap| - 1] == EventsOf(k, gap[..|gap| - 1]);
    }
  }

  lemma ResetReleases(k: Kind, n: Nic)
    ensures Decode(k, AfterReset(k, n)) == Released(Decode(k, n))
  {
    assert n.ctrl - {22} - CTRL_PINS == n.ctrl - CTRL_PINS;
    assert n.ctrlExt - {10, 11} - CTRL_EXT_PINS == n.ctrlExt - CTRL_EXT_PINS;
    assert n.esdp - {8, 10, 11} - ESDP_PINS == n.esdp - ESDP_PINS;
  }

  lemma SenseHolds(k: Kind, b: Board, o: OutPin)
    ensures Holds(k, Sense(k, b, PortOf(o), Info(k, Out(o)).reg), SensedPort(ViewOf(k, b), PortOf(o)), o)
  {
    hide Shown;
  }

  lemma PokeIsWritten(k: Kind, b: Board, o: OutPin, val: Word, captured: Port)
    requires Holds(k, val, captured, o)
    ensures ViewOf(k, Poke(k, b, PortOf(o), Info(k, Out(o)).reg, val)) == Written(k, ViewOf(k, b), captured, o)
  {
    hide Observe, Holds;
    var n := if PortOf(o) == 0 then b.nic0 else b.nic1;
    WithRegWrites(k, n, val, captured, o);
  }

  /** How many strikes a schedule holds. */
  function Strikes(q: seq<Gap>): nat {
    if q == [] then 0 else |q[0]| + Strikes(q[1..])
  }

  function Rest(q: seq<Gap>): seq<Gap> {
    if q == [] then [] else q[1..]
  }

  function Next(q: seq<Gap>): Gap {
    if q == [] then [] else q[0]
  }

  lemma NextConsumed(q: seq<Gap>)
    ensures Strikes(q) == |Next(q)| + Strikes(Rest(q))
  {
  }

  /** At most one strike between a read and the write-back, and on ESDP no reset of port 0. */
  predicate TameGap(k: Kind, gap: Gap) {
    |gap| <= 1 && (k.Esdp? ==> forall s :: s in gap && s.ResetOf? ==> s.port != 0)
  }

  predicate Tame(k: Kind, q: seq<Gap>) {
    forall gap :: gap in q ==> TameGap(k, gap)
  }

  lemma TameOn(k: Kind, q: seq<Gap>)
    ensures Tame(k, q) ==> Tame(k, Rest(q)) && TameGap(k, Next(q))
  {
    assert q != [] ==> q[0] in q;
  }

  function Rmw(k: Kind, b: Board, s1: Gap, s2: Gap, o: OutPin, level: bool): Board {
    var i := Info(k, Out(o));
    var b1 := Hit(k, b, s1);
    Poke(k, Hit(k, b1, s2), i.port, i.reg, MoveBit(Sense(k, b1, i.port, i.reg), i.data, level))
  }

  /** The driver's read-modify-write of a whole register word is the view's move of one pin. */
  lemma RmwIsMoved(k: Kind, b: Board, s1: Gap, s2: Gap, o: OutPin, level: bool)
    ensures ViewOf(k, Rmw(k, b, s1, s2, o, level)) == Moved(k, ViewOf(k, b), EventsOf(k, s1), EventsOf(k, s2), o, level)
  {
    var i := Info(k, Out(o));
    assert i.port == PortOf(o);
    hide Hit, Sense, Poke, ViewOf, Holds, Info, EventsOf, StruckBy, Written, MoveBit;
    var b1 := Hit(k, b, s1);
    HitIsStruck(k, b, s1);
    HitIsStruck(k, b1, s2);
    SenseHolds(k, b1, o);
    var captured := SensedPort(ViewOf(k, b1), PortOf(o));
    MoveBitMoves(k, Sense(k, b1, i.port, i.reg), captured, o, level);
    PokeIsWritten(k, Hit(k, b1, s2), o, MoveBit(Sense(k, b1, i.port, i.reg), i.data, level),
                  MovedLine(captured, o, level));
  }

  /** The strikes between the read and the write-back of a move are insidious. */
  predicate Misleads(k: Kind, b: Board, s1: Gap, s2: Gap, o: OutPin, level: bool) {
    Insidious(k, ViewOf(k, Hit(k, b, s1)), EventsOf(k, s2), o, level)
  }

  lemma RmwMoves(k: Kind, b: Board, s1: Gap, s2: Gap, o: OutPin, level: bool)
    requires PinView.Valid(ViewOf(k, b))
    ensures var v, r := ViewOf(k, b), ViewOf(k, Rmw(k, b, s1, s2, o, level));
      && PinView.Valid(r)
      && (OutputsRight(r) ==> OutputsRight(v))
      && (OutputsRight(r) && !Misleads(k, b, s1, s2, o, level) ==> r.cpld == Drive(v.cpld, o, level))
      && (s1 == [] && s2 == [] ==>
            OutputsRight(r) == OutputsRight(v) && Foreign(r) == Foreign(v) && !Misleads(k, b, s1, s2, o, level))
  {
    hide Drive, Observe, OutputsRight, PinView.Valid, Moved, Insidious, StruckBy, ViewOf, Hit;
    RmwIsMoved(k, b, s1, s2, o, level);
    HitIsStruck(k, b, s1);
    MoveDetects(k, ViewOf(k, b), EventsOf(k, s1), EventsOf(k, s2), o, level);
    assert s1 == [] && s2 == [] ==> EventsOf(k, s1) == [] && EventsOf(k, s2) == [];
  }

  lemma TameEvents(k: Kind, gap: Gap)
    requires TameGap(k, gap)
    ensures |EventsOf(k, gap)| <= 1 && (k.Esdp? ==> !HitBy(EventsOf(k, gap), 0))
  {
    if gap != [] {
      assert gap == [gap[0]] && gap[0] in gap;
    }
  }

  /** A move of STB1 that is safe for single pulses, and any move of another pin, is not misled by a tame gap. */
  lemma TameGapIsHarmless(k: Kind, b: Board, s1: Gap, s2: Gap, o: OutPin, level: bool)
    requires PinView.Valid(ViewOf(k, b)) && TameGap(k, s2)
    requires OutputsRight(ViewOf(k, b)) ==> GlitchSafe(b.cpld, o, level)
    ensures !Misleads(k, b, s1, s2, o, level)
  {
    var v, v1 := ViewOf(k, b), ViewOf(k, Hit(k, b, s1));
    HitIsStruck(k, b, s1);
    EventsAtRest(v, EventsOf(k, s1));
    EventsRelease(v, EventsOf(k, s1));
    assert v.cpld == b.cpld;
    hide HitBy, Hit, StruckBy, ViewOf, Insidious, EventsOf, PinView.Valid;
    if OutputsRight(v1) {
      TameEvents(k, s2);
      OneEventIsTame(k, v1, EventsOf(k, s2), o, level);
    } else {
      OnlyFromRight(k, v1, EventsOf(k, s2), o, level);
    }
  }

  lemma OnlyFromRight(k: Kind, v: View, es: seq<Event>, o: OutPin, level: bool)
    requires !OutputsRight(v)
    ensures !Insidious(k, v, es, o, level)
  {
  }

  /** What the repair of another thread writes: on SDP one row of the table, on ESDP the word of a port. */
  lemma RepairIsMend(k: Kind, earlier: Board, now: Board, o: OutPin)
    ensures
      var i := Info(k, Out(o));
      var read := Sense(k, earlier, i.port, i.reg);
      var val := if k.Sdp? then MoveBit(read, i.dir, true) else PortWord(read, i.port);
      ViewOf(k, Poke(k, now, i.port, i.reg, val)) == Mend(k, ViewOf(k, earlier), ViewOf(k, now), o)
  {
    var i := Info(k, Out(o));
    var read := Sense(k, earlier, i.port, i.reg);
    var val := if k.Sdp? then MoveBit(read, i.dir, true) else PortWord(read, i.port);
    SenseHolds(k, earlier, o);
    var captured := SensedPort(ViewOf(k, earlier), PortOf(o));
    MendHolds(k, read, captured, o);
    hide Sense, SensedPort, ViewOf, Poke, Holds, Mended;
    PokeIsWritten(k, now, o, val, Mended(k, captured, o));
  }

  lemma MendHolds(k: Kind, read: Word, captured: Port, o: OutPin)
    requires Holds(k, read, captured, o)
    ensures var i := Info(k, Out(o));
      Holds(k, if k.Sdp? then MoveBit(read, i.dir, true) else PortWord(read, i.port), Mended(k, captured, o), o)
  {
  }

  // The log of commits.

  /** Since the log had the given length, when the registers were as origin says, they have only changed by
      the commits logged. */
  predicate Logged(origin: Memory, since: nat, c: Cpld) {
    since <= |c.commits| && c.mem == Replay(origin, c.commits[since..])
  }

  lemma ObserveCommits(c: Cpld, n: Levels)
    ensures var r := Observe(c, n);
      || (r.commits == c.commits && r.mem == c.mem)
      || exists done :: r.commits == c.commits + [done] && r.mem == Store(c.mem, done)
  {
    hide Store, Data;
  }

  lemma ObserveLogs(origin: Memory, since: nat, c: Cpld, n: Levels)
    requires Logged(origin, since, c)
    ensures var r := Observe(c, n);
      Logged(origin, since, r) && c.commits <= r.commits && |r.commits| <= |c.commits| + 1
  {
    hide Store, Observe;
    ObserveCommits(c, n);
    var r := Observe(c, n);
    if !(r.commits == c.commits && r.mem == c.mem) {
      var done :| r.commits == c.commits + [done] && r.mem == Store(c.mem, done);
      assert r.commits[since..] == c.commits[since..] + [done];
    }
  }

  lemma HitOnceLogs(k: Kind, b: Board, s: Strike, origin: Memory, since: nat)
    requires Logged(origin, since, b.cpld)
    ensures var r := HitOnce(k, b, s).cpld;
      Logged(origin, since, r) && b.cpld.commits <= r.commits && |r.commits| <= |b.cpld.commits| + 1
  {
    hide Logged, Observe, ViewOf;
    var struck :=
      if s.WanderTo? then b.(float := s.float)
      else if s.port == 0 then b.(nic0 := AfterReset(k, s.after), float := s.float)
      else b.(nic1 := AfterReset(k, s.after), float := s.float);
    ObserveLogs(origin, since, b.cpld, Pads(ViewOf(k, struck)));
  }

  lemma {:induction false} HitLogs(k: Kind, b: Board, gap: Gap, origin: Memory, since: nat)
    requires Logged(origin, since, b.cpld)
    ensures var r := Hit(k, b, gap).cpld;
      Logged(origin, since, r) && b.cpld.commits <= r.commits && |r.commits| <= |b.cpld.commits| + |gap|
    decreases |gap|
  {
    hide Logged, HitOnce;
    if gap != [] {
      HitLogs(k, b, gap[..|gap| - 1], origin, since);
      HitOnceLogs(k, Hit(k, b, gap[..|gap| - 1]), gap[|gap| - 1], origin, since);
    }
  }

  lemma PokeLogs(k: Kind, b: Board, port: int, reg: Register, val: Word, origin: Memory, since: nat)
    requires Logged(origin, since, b.cpld)
    ensures var r := Poke(k, b, port, reg, val).cpld; Logged(origin, since, r) && b.cpld.commits <= r.commits
  {
    hide Logged, Observe, ViewOf;
    var poked := if port == 0 then b.(nic0 := WithReg(b.nic0, reg, val)) else b.(nic1 := WithReg(b.nic1, reg, val));
    ObserveLogs(origin, since, b.cpld, Pads(ViewOf(k, poked)));
  }

  lemma RmwLogs(k: Kind, b: Board, s1: Gap, s2: Gap, o: OutPin, level: bool, origin: Memory, since: nat)
    requires Logged(origin, since, b.cpld)
    ensures var r := Rmw(k, b, s1, s2, o, level).cpld; Logged(origin, since, r) && b.cpld.commits <= r.commits
  {
    hide Logged, Hit, Poke, Sense;
    var i := Info(k, Out(o));
    var b1 := Hit(k, b, s1);
    var b2 := Hit(k, b1, s2);
    HitLogs(k, b, s1, origin, since);
    HitLogs(k, b1, s2, origin, since);
    PokeLogs(k, b2, i.port, i.reg, MoveBit(Sense(k, b1, i.port, i.reg), i.data, level), origin, since);
  }

  lemma NothingLogged(c: Cpld)
    ensures Logged(c.mem, |c.commits|, c)
  {
  }

  /** Two points of one log. */
  lemma LoggedFollows(origin: Memory, since: nat, c0: Cpld, c1: Cpld)
    requires Logged(origin, since, c0) && Logged(origin, since, c1) && c0.commits <= c1.commits
    ensures Follows(c0, c1)
  {
    hide Replay;
    var a, b := c0.commits[since..], c1.commits[|c0.commits|..];
    assert c1.commits[since..] == a + b;
    ReplayAppends(origin, a, b);
  }

  lemma DriveSees(c: Cpld, o: OutPin, level: bool)
    ensures Drive(c, o, level).seen == WithLevel(c.seen, o, level)
  {
  }

  // Direction repair.

  /** cpld_pins[] in index order. */
  const PINS: seq<Pin> := [Out(ADO0), Out(ADO1), Out(STB0), Out(STB1), DI0, DI1]

  /** A view without the data bits of the two input lines, which only mirror the CPLD. */
  function Essence(v: View): (Port, Port) {
    (v.port0, v.port1.(lo := v.port1.lo.(data := false), hi := v.port1.hi.(data := false)))
  }

  function DirectionOf(e: (Port, Port), p: Pin): bool {
    match p
    case Out(ADO0) => e.0.lo.out
    case Out(ADO1) => e.0.hi.out
    case Out(STB0) => e.0.stb.out
    case Out(STB1) => e.1.stb.out
    case DI0 => e.1.lo.out
    case DI1 => e.1.hi.out
  }

  function WithDirection(e: (Port, Port), p: Pin, out: bool): (Port, Port) {
    match p
    case Out(ADO0) => (e.0.(lo := e.0.lo.(out := out)), e.1)
    case Out(ADO1) => (e.0.(hi := e.0.hi.(out := out)), e.1)
    case Out(STB0) => (e.0.(stb := e.0.stb.(out := out)), e.1)
    case Out(STB1) => (e.0, e.1.(stb := e.1.stb.(out := out)))
    case DI0 => (e.0, e.1.(lo := e.1.lo.(out := out)))
    case DI1 => (e.0, e.1.(hi := e.1.hi.(out := out)))
  }

  /** All six directions as the table wants them and nothing else touched. */
  function Repaired(e: (Port, Port)): (Port, Port) {
    (e.0.(lo := e.0.lo.(out := true), hi := e.0.hi.(out := true), stb := e.0.stb.(out := true)),
     e.1.(stb := e.1.stb.(out := true), lo := e.1.lo.(out := false), hi := e.1.hi.(out := false)))
  }

  lemma SenseKeepsDirection(k: Kind, b: Board, p: Pin)
    ensures var i := Info(k, p);
      (i.dir in Sense(k, b, i.port, i.reg)) == DirectionOf(Essence(ViewOf(k, b)), p)
  {
    hide Shown;
  }

  lemma SenseDiffersInInputs(k: Kind, b: Board, port: int, reg: Register)
    ensures var val := Sense(k, b, port, reg);
      forall n :: (n in val) != (n in Stored(b, port, reg)) ==>
        port == 1 && (n == Info(k, DI0).data || n == Info(k, DI1).data) && reg == Info(k, DI0).reg
  {
    hide Shown;
  }

  /** Writing a register back with one direction bit moved changes that direction only. */
  lemma PokeDirection(k: Kind, b: Board, p: Pin, out: bool)
    ensures var i := Info(k, p);
      Essence(ViewOf(k, Poke(k, b, i.port, i.reg, MoveBit(Sense(k, b, i.port, i.reg), i.dir, out))))
        == WithDirection(Essence(ViewOf(k, b)), p, out)
  {
    hide Shown, Observe, Sense;
    var i := Info(k, p);
    var before := Stored(b, i.port, i.reg);
    var sensed := Sense(k, b, i.port, i.reg);
    SenseDiffersInInputs(k, b, i.port, i.reg);
    var val := MoveBit(sensed, i.dir, out);
    if k.Sdp? {
      PokeDirectionSdp(b, p, out, sensed);
    } else {
      PokeDirectionEsdp(b, p, out, sensed);
    }
  }

  lemma SameForeign(sensed: Word, before: Word, dir: int, out: bool, pins: Word)
    requires dir in pins && forall n :: n !in pins ==> (n in sensed <==> n in before)
    ensures MoveBit(sensed, dir, out) - pins == before - pins
  {
    forall n ensures n in MoveBit(sensed, dir, out) - pins <==> n in before - pins {
      assert n !in pins ==> (n in sensed <==> n in before);
    }
  }

  lemma PokeDirectionSdp(b: Board, p: Pin, out: bool, sensed: Word)
    requires var i := Info(Sdp, p);
      forall n :: (n in sensed) != (n in Stored(b, i.port, i.reg)) ==>
        i.port == 1 && (n == 6 || n == 7) && i.reg == CtrlExtReg
    ensures var i := Info(Sdp, p);
      Essence(ViewOf(Sdp, Poke(Sdp, b, i.port, i.reg, MoveBit(sensed, i.dir, out))))
          == WithDirection(Essence(ViewOf(Sdp, b)), p, out)
  {
    hide Observe;
    var i := Info(Sdp, p);
    var before := Stored(b, i.port, i.reg);
    var val := MoveBit(sensed, i.dir, out);
    if i.reg == CtrlReg {
      SameForeign(sensed, before, i.dir, out, CTRL_PINS);
    } else {
      SameForeign(sensed, before, i.dir, out, CTRL_EXT_PINS);
    }
  }

  lemma PokeDirectionEsdp(b: Board, p: Pin, out: bool, sensed: Word)
    requires var i := Info(Esdp, p);
      forall n :: (n in sensed) != (n in Stored(b, i.port, i.reg)) ==> i.port == 1 && (n == 2 || n == 3)
    ensures var i := Info(Esdp, p);
      Essence(ViewOf(Esdp, Poke(Esdp, b, i.port, i.reg, MoveBit(sensed, i.dir, out))))
          == WithDirection(Essence(ViewOf(Esdp, b)), p, out)
  {
    hide Observe;
    var i := Info(Esdp, p);
    var before := Stored(b, i.port, i.reg);
    var val := MoveBit(sensed, i.dir, out);
    SameForeign(sensed, before, i.dir, out, ESDP_PINS);
  }

  lemma PokeSettles(k: Kind, b: Board, port: int, reg: Register, val: Word)
    ensures var v := ViewOf(k, Poke(k, b, port, reg, val)); v.cpld.seen == Pads(v)
  {
    hide Observe;
    ObserveSees(b.cpld, Pads(ViewOf(k, Poke(k, b, port, reg, val))));
  }

  lemma InputsAfterRepair(k: Kind, b1: Board, b2: Board, p: Pin)
    requires InputsRight(ViewOf(k, b1)) && InputsRight(ViewOf(k, b2))
    ensures var i := Info(k, p);
      InputsRight(ViewOf(k, Poke(k, b2, i.port, i.reg, MoveBit(Sense(k, b1, i.port, i.reg), i.dir, i.output))))
  {
    hide Shown, Observe, Sense, Pads;
    var i := Info(k, p);
    SenseDiffersInInputs(k, b1, i.port, i.reg);
  }

  lemma RepairKeepsValid(k: Kind, b1: Board, b2: Board, p: Pin)
    requires PinView.Valid(ViewOf(k, b1)) && PinView.Valid(ViewOf(k, b2))
    ensures var i := Info(k, p);
      PinView.Valid(ViewOf(k, Poke(k, b2, i.port, i.reg, MoveBit(Sense(k, b1, i.port, i.reg), i.dir, i.output))))
  {
    var i := Info(k, p);
    InputsAfterRepair(k, b1, b2, p);
    PokeSettles(k, b2, i.port, i.reg, MoveBit(Sense(k, b1, i.port, i.reg), i.dir, i.output));
    hide Poke, Sense, ViewOf, InputsRight, Pads, Info;
  }

  /** No output is driven in e that was not driven in e0. */
  predicate NoNewOutputs(e0: (Port, Port), e: (Port, Port)) {
    && (e.0.stb.out ==> e0.0.stb.out) && (e.0.lo.out ==> e0.0.lo.out)
    && (e.0.hi.out ==> e0.0.hi.out) && (e.1.stb.out ==> e0.1.stb.out)
  }

  /** Strikes only take outputs away. */
  lemma HitLosesOutputs(k: Kind, b: Board, gap: Gap)
    requires PinView.Valid(ViewOf(k, b))
    ensures var b1 := Hit(k, b, gap);
      && PinView.Valid(ViewOf(k, b1))
      && NoNewOutputs(Essence(ViewOf(k, b)), Essence(ViewOf(k, b1)))
      && InputsRight(ViewOf(k, b)) && InputsRight(ViewOf(k, b1))
  {
    HitIsStruck(k, b, gap);
    EventsRelease(ViewOf(k, b), EventsOf(k, gap));
    hide ViewOf, Hit, StruckBy, HitBy;
  }

  lemma CheckRead(k: Kind, b: Board, s1: Gap, p: Pin)
    requires PinView.Valid(ViewOf(k, b))
    ensures var b1, i := Hit(k, b, s1), Info(k, p);
      && PinView.Valid(ViewOf(k, b1))
      && NoNewOutputs(Essence(ViewOf(k, b)), Essence(ViewOf(k, b1)))
      && (i.dir in Sense(k, b1, i.port, i.reg)) == DirectionOf(Essence(ViewOf(k, b1)), p)
      && (DirectionOf(Essence(ViewOf(k, b1)), p) == i.output ==> DirectionOf(Essence(ViewOf(k, b)), p) == i.output)
  {
    HitLosesOutputs(k, b, s1);
    SenseKeepsDirection(k, Hit(k, b, s1), p);
    hide Shown, Observe, Sense, ViewOf, Hit, PinView.Valid;
  }

  lemma CheckWrite(k: Kind, b1: Board, s2: Gap, p: Pin)
    requires PinView.Valid(ViewOf(k, b1))
    ensures var i := Info(k, p);
      var r := Poke(k, Hit(k, b1, s2), i.port, i.reg, MoveBit(Sense(k, b1, i.port, i.reg), i.dir, i.output));
      && PinView.Valid(ViewOf(k, r))
      && (s2 == [] ==> Essence(ViewOf(k, r)) == WithDirection(Essence(ViewOf(k, b1)), p, i.output))
  {
    CheckRead(k, b1, s2, p);
    RepairKeepsValid(k, b1, Hit(k, b1, s2), p);
    PokeDirection(k, b1, p, Info(k, p).output);
    assert s2 == [] ==> Hit(k, b1, s2) == b1;
    hide Hit, Poke, Sense, ViewOf, Essence;
  }

  /** Reading a DI pin while strikes may come. */
  lemma GetSenses(k: Kind, b: Board, gap: Gap, p: Pin)
    requires PinView.Valid(ViewOf(k, b)) && !p.Out?
    ensures
      var b1, i := Hit(k, b, gap), Info(k, p);
      var v, v1 := ViewOf(k, b), ViewOf(k, b1);
      && PinView.Valid(v1)
      && (OutputsRight(v1) ==> OutputsRight(v) && b1.cpld == b.cpld)
      && (gap == [] ==> b1 == b)
      && (i.data in Sense(k, b1, i.port, i.reg) <==> Shown(b1.cpld) & (if p.DI0? then 1 else 2) != 0)
  {
    HitIsStruck(k, b, gap);
    EventsAtRest(ViewOf(k, b), EventsOf(k, gap));
    EventsRelease(ViewOf(k, b), EventsOf(k, gap));
    InputsShow(k, Hit(k, b, gap), p);
    hide HitBy, Hit, StruckBy, Shown, Sense;
  }

  lemma InputsShow(k: Kind, b: Board, p: Pin)
    requires InputsRight(ViewOf(k, b)) && !p.Out?
    ensures var i := Info(k, p);
      i.data in Sense(k, b, i.port, i.reg) <==> Shown(b.cpld) & (if p.DI0? then 1 else 2) != 0
  {
    hide Shown;
  }

  lemma RightAlready(e: (Port, Port), p: Pin)
    ensures WithDirection(e, p, DirectionOf(e, p)) == e
  {
  }

  /** A direction found right later was right before, if outputs were only lost in between. */
  lemma RightBefore(k: Kind, v0: View, e: (Port, Port), p: Pin)
    requires InputsRight(v0) && NoNewOutputs(Essence(v0), e) && DirectionOf(e, p) == Info(k, p).output
    ensures DirectionOf(Essence(v0), p) == Info(k, p).output
  {
  }

  lemma AllRowsRight(k: Kind, v: View)
    requires InputsRight(v)
    ensures OutputsRight(v) <==> forall j :: 0 <= j < 6 ==> DirectionOf(Essence(v), PINS[j]) == Info(k, PINS[j]).output
  {
    assert PINS[0] == Out(ADO0) && PINS[1] == Out(ADO1) && PINS[2] == Out(STB0) && PINS[3] == Out(STB1);
  }

  /** The first n rows of the table repaired. */
  function Partial(k: Kind, e: (Port, Port), n: nat): (Port, Port)
    requires n <= 6
  {
    if n == 0 then e else WithDirection(Partial(k, e, n - 1), PINS[n - 1], Info(k, PINS[n - 1]).output)
  }

  /** Nothing but directions differs. */
  predicate SameData(e: (Port, Port), r: (Port, Port)) {
    && r.0.lo.data == e.0.lo.data && r.0.hi.data == e.0.hi.data && r.0.stb.data == e.0.stb.data
    && r.1.lo.data == e.1.lo.data && r.1.hi.data == e.1.hi.data && r.1.stb.data == e.1.stb.data
    && r.0.foreign == e.0.foreign && r.1.foreign == e.1.foreign
  }

  lemma DirectionsAreSeparate(e: (Port, Port), p: Pin, out: bool, q: Pin)
    ensures DirectionOf(WithDirection(e, p, out), q) == if p == q then out else DirectionOf(e, q)
  {
  }

  lemma DirectionsAreExtra(e: (Port, Port), p: Pin, out: bool)
    ensures SameData(e, WithDirection(e, p, out))
  {
  }

  lemma SameDataOn(e: (Port, Port), f: (Port, Port), g: (Port, Port))
    ensures SameData(e, e)
    ensures SameData(e, f) && SameData(f, g) ==> SameData(e, g)
  {
  }

  lemma {:induction false} PartialRights(k: Kind, e: (Port, Port), n: nat, q: Pin)
    requires n <= 6
    ensures var r := Partial(k, e, n);
      DirectionOf(r, q) == (if q in PINS[..n] then Info(k, q).output else DirectionOf(e, q)) && SameData(e, r)
  {
    hide DirectionOf, WithDirection, SameData, Info;
    if n == 0 {
      SameDataOn(e, e, e);
    }
    if n > 0 {
      PartialRights(k, e, n - 1, q);
      DirectionsAreSeparate(Partial(k, e, n - 1), PINS[n - 1], Info(k, PINS[n - 1]).output, q);
      DirectionsAreExtra(Partial(k, e, n - 1), PINS[n - 1], Info(k, PINS[n - 1]).output);
      SameDataOn(e, Partial(k, e, n - 1), Partial(k, e, n));
      assert PINS[..n] == PINS[..n - 1] + [PINS[n - 1]];
    }
  }

  lemma PartialIsRepaired(k: Kind, e: (Port, Port))
    ensures Partial(k, e, 6) == Repaired(e)
  {
    forall q: Pin
      ensures DirectionOf(Partial(k, e, 6), q) == Info(k, q).output
    {
      PartialRights(k, e, 6, q);
      EveryPinHasARow(q);
    }
    PartialRights(k, e, 6, DI0);
    hide Partial;
    RightedIsRepaired(k, e, Partial(k, e, 6));
  }

  /** All directions right and the same data: the repair. */
  lemma RightedIsRepaired(k: Kind, e: (Port, Port), r: (Port, Port))
    requires SameData(e, r) && forall q: Pin :: DirectionOf(r, q) == Info(k, q).output
    ensures r == Repaired(e)
  {
    assert DirectionOf(r, Out(ADO0)) && DirectionOf(r, Out(ADO1)) && DirectionOf(r, Out(STB0))
      && DirectionOf(r, Out(STB1));
    assert !DirectionOf(r, DI0) && !DirectionOf(r, DI1);
  }

  lemma EveryPinHasARow(q: Pin)
    ensures q in PINS[..6]
  {
    assert PINS[..6] == PINS;
    match q
    case Out(ADO0) => assert PINS[0] == q;
    case Out(ADO1) => assert PINS[1] == q;
    case Out(STB0) => assert PINS[2] == q;
    case Out(STB1) => assert PINS[3] == q;
    case DI0 => assert PINS[4] == q;
    case DI1 => assert PINS[5] == q;
  }

  // The two tables among all tables.

  function RegisterNumber(port: int, reg: Register): nat {
    (if port == 0 then 0 else 3) + (match reg case CtrlReg => 0 case CtrlExtReg => 1 case EsdpReg => 2)
  }

  function BankOf(b: Board): seq<Word> {
    [b.nic0.ctrl, b.nic0.ctrlExt, b.nic0.esdp, b.nic1.ctrl, b.nic1.ctrlExt, b.nic1.esdp]
  }

  /** Where the DI pins show. */
  function Inputs(k: Kind): seq<Word> {
    if k.Sdp? then [{}, {}, {}, {}, {6, 7}, {}] else [{}, {}, {}, {}, {}, {2, 3}]
  }

  /** The software-definable pin of the NIC that a pin is, 0 to 3; the same on both kinds and for both ports. */
  function SdpNumber(p: Pin): int {
    match p
    case DI0 => 2
    case DI1 => 3
    case Out(o) => if o == ADO0 then 2 else if o == ADO1 then 3 else 0
  }

  /** Where the data bit of such a pin is: CTRL and CTRL_EXT hold two pins each, ESDP all of them. Its direction bit
      comes four or eight bits later, and the strobes are the same pin of either port. */
  lemma PinsAreSdp(k: Kind, p: Pin)
    ensures var i, n := Info(k, p), SdpNumber(p);
      && i.port == (if p == Out(STB1) || p == DI0 || p == DI1 then 1 else 0) && i.output == p.Out?
      && (k.Esdp? ==> i.reg == EsdpReg && i.data == n && i.dir == i.data + 8)
      && (k.Sdp? ==>
            && i.reg == (if n < 2 then CtrlReg else CtrlExtReg)
            && i.data == (if n < 2 then 18 + n else 4 + n) && i.dir == i.data + 4)
  {
  }

  function RowOf(k: Kind, p: Pin): DirectionTable.Row {
    var i := Info(k, p);
    DirectionTable.Row(RegisterNumber(i.port, i.reg), i.dir, i.output)
  }

  function Table(k: Kind): seq<DirectionTable.Row> {
    seq(6, j requires 0 <= j < 6 => RowOf(k, PINS[j]))
  }

  /** Both tables meet what DirectionTable asks of a table. */
  lemma TablesFit(k: Kind)
    ensures DirectionTable.Fits(Table(k), 6)
    ensures forall j | 0 <= j < 6 :: Table(k)[j].dir !in Inputs(k)[Table(k)[j].reg]
    ensures k.Esdp? ==> forall j | 0 <= j < 6 :: 8 <= Table(k)[j].dir < 16
  {
    var t := Table(k);
    if k.Sdp? {
      assert t[0] == DirectionTable.Row(1, 10, true) && t[1] == DirectionTable.Row(1, 11, true);
      assert t[2] == DirectionTable.Row(0, 22, true) && t[3] == DirectionTable.Row(3, 22, true);
      assert t[4] == DirectionTable.Row(4, 10, false) && t[5] == DirectionTable.Row(4, 11, false);
    } else {
      assert t[0] == DirectionTable.Row(2, 10, true) && t[1] == DirectionTable.Row(2, 11, true);
      assert t[2] == DirectionTable.Row(2, 8, true) && t[3] == DirectionTable.Row(5, 8, true);
      assert t[4] == DirectionTable.Row(5, 10, false) && t[5] == DirectionTable.Row(5, 11, false);
    }
    hide Table;
  }

  /** The direction bits of the tables, register by register. */
  function DirectionBits(k: Kind, r: nat): Word {
    if k.Sdp? then if r == 0 || r == 3 then {22} else if r == 1 || r == 4 then {10, 11} else {}
    else if r == 2 || r == 5 then {8, 10, 11} else {}
  }

  lemma TableBits(k: Kind, r: nat, n: int)
    ensures DirectionTable.IsDirection(Table(k), r, n) <==> n in DirectionBits(k, r)
  {
    assert Table(k)[0] == RowOf(k, Out(ADO0)) && Table(k)[1] == RowOf(k, Out(ADO1))
      && Table(k)[2] == RowOf(k, Out(STB0));
    assert Table(k)[3] == RowOf(k, Out(STB1)) && Table(k)[4] == RowOf(k, DI0) && Table(k)[5] == RowOf(k, DI1);
  }

  lemma RowTells(k: Kind, b: Board, p: Pin)
    ensures RowOf(k, p).reg < 6
    ensures DirectionTable.RowRight(RowOf(k, p), BankOf(b)) <==>
      DirectionOf(Essence(ViewOf(k, b)), p) == Info(k, p).output
  {
  }

  lemma TableRight(k: Kind, b: Board)
    requires DirectionTable.Fits(Table(k), 6)
    ensures DirectionTable.AllRight(Table(k), BankOf(b)) <==>
      forall p: Pin :: DirectionOf(Essence(ViewOf(k, b)), p) == Info(k, p).output
  {
    forall p: Pin
      ensures RowOf(k, p).reg < 6 && exists j | 0 <= j < 6 :: Table(k)[j] == RowOf(k, p)
      ensures DirectionTable.RowRight(RowOf(k, p), BankOf(b)) <==>
        DirectionOf(Essence(ViewOf(k, b)), p) == Info(k, p).output
    {
      EveryPinHasARow(p);
      RowTells(k, b, p);
      var j :| 0 <= j < 6 && PINS[j] == p;
      assert Table(k)[j] == RowOf(k, p);
    }
    hide RowOf, Info, DirectionOf, ViewOf, Essence, BankOf;
    forall j | 0 <= j < 6
      ensures Table(k)[j] == RowOf(k, PINS[j])
    {
    }
  }

  /** Two words agree but for some bits. */
  ghost predicate Alike(a: Word, b: Word, but: Word) {
    forall n | n !in but :: n in a <==> n in b
  }

  lemma AlikeOutside(a: Word, b: Word, but: Word, pins: Word)
    requires Alike(a, b, but) && but <= pins
    ensures a - pins == b - pins
  {
    forall n
      ensures n in a - pins <==> n in b - pins
    {
    }
  }

  lemma AlikeSame(a: Word, b: Word)
    requires Alike(a, b, {})
    ensures a == b
  {
    assert forall n :: n in a <==> n in b;
  }

  lemma TableKeeps(k: Kind, before: Board, after: Board, r: nat)
    requires r < 6 && DirectionTable.SameBut(Table(k), Inputs(k), BankOf(before), BankOf(after))
    ensures Alike(BankOf(after)[r], BankOf(before)[r], DirectionBits(k, r) + Inputs(k)[r])
  {
    hide Table, DirectionBits;
    forall n | n !in DirectionBits(k, r) + Inputs(k)[r]
      ensures n in BankOf(after)[r] <==> n in BankOf(before)[r]
    {
      TableBits(k, r, n);
    }
  }

  /** What DirectionTable says of a table, said of these two: righting all rows without touching another
      bit is the repair. */
  lemma RepairIsInstance(k: Kind, before: Board, after: Board)
    requires DirectionTable.Fits(Table(k), 6) && DirectionTable.AllRight(Table(k), BankOf(after))
    requires DirectionTable.SameBut(Table(k), Inputs(k), BankOf(before), BankOf(after))
    ensures Essence(ViewOf(k, after)) == Repaired(Essence(ViewOf(k, before)))
  {
    TableRight(k, after);
    TableData(k, before, after);
    hide Table, DirectionOf, Info, ViewOf, Essence, Repaired, SameData;
    RightedIsRepaired(k, Essence(ViewOf(k, before)), Essence(ViewOf(k, after)));
  }

  lemma TableData(k: Kind, before: Board, after: Board)
    requires DirectionTable.SameBut(Table(k), Inputs(k), BankOf(before), BankOf(after))
    ensures SameData(Essence(ViewOf(k, before)), Essence(ViewOf(k, after)))
  {
    TableKeeps(k, before, after, 0);
    TableKeeps(k, before, after, 1);
    TableKeeps(k, before, after, 2);
    TableKeeps(k, before, after, 3);
    TableKeeps(k, before, after, 4);
    TableKeeps(k, before, after, 5);
    hide Table, Alike, Decode;
    PortKeeps(k, before.nic0, after.nic0, {});
    PortKeeps(k, before.nic1, after.nic1, if k.Sdp? then {6, 7} else {2, 3});
  }

  /** One port: data and other bits stay. */
  lemma PortKeeps(k: Kind, before: Nic, after: Nic, inputs: Word)
    requires inputs == {} || inputs == if k.Sdp? then {6, 7} else {2, 3}
    requires Alike(after.ctrl, before.ctrl, if k.Sdp? then {22} + {} else {} + {})
    requires Alike(after.ctrlExt, before.ctrlExt, if k.Sdp? then {10, 11} + inputs else {} + {})
    requires Alike(after.esdp, before.esdp, if k.Sdp? then {} + {} else {8, 10, 11} + inputs)
    ensures var p, q := Decode(k, before), Decode(k, after);
      && q.foreign == p.foreign && q.stb.data == p.stb.data
      && (inputs == {} ==> q.lo.data == p.lo.data && q.hi.data == p.hi.data)
  {
    if k.Sdp? {
      AlikeOutside(after.ctrl, before.ctrl, {22}, CTRL_PINS);
      AlikeOutside(after.ctrlExt, before.ctrlExt, {10, 11} + inputs, CTRL_EXT_PINS);
      AlikeSame(after.esdp, before.esdp);
    } else {
      AlikeOutside(after.esdp, before.esdp, {8, 10, 11} + inputs, ESDP_PINS);
      AlikeSame(after.ctrl, before.ctrl);
      AlikeSame(after.ctrlExt, before.ctrlExt);
    }
  }

  /** One port's directions repaired, as module/cpld_esdp.c does it in a single write. */
  function RepairedPort(e: (Port, Port), port: int): (Port, Port) {
    if port == 0 then (Repaired(e).0, e.1) else (e.0, Repaired(e).1)
  }

  predicate PortRight(e: (Port, Port), port: int) {
    if port == 0 then e.0.stb.out && e.0.lo.out && e.0.hi.out
    else e.1.stb.out && !e.1.lo.out && !e.1.hi.out
  }

  lemma PortRightBefore(v0: View, e: (Port, Port), port: int)
    requires PinView.Valid(v0) && NoNewOutputs(Essence(v0), e) && PortRight(e, port)
    ensures PortRight(Essence(v0), port)
  {
  }

  lemma RightPortStays(e: (Port, Port), port: int)
    requires PortRight(e, port)
    ensures RepairedPort(e, port) == e
  {
  }

  /** The ESDP word with the direction bits of a port as the table wants them. */
  function PortWord(esdp: Word, port: int): Word {
    if port == 0 then esdp + {8, 10, 11} else esdp + {8} - {10, 11}
  }

  /** The word after the first n rows of the table have been applied to it. */
  function DirectedWord(esdp: Word, port: int, n: nat): Word
    requires n <= 6
  {
    if n == 0 then esdp
    else
      var i := Info(Esdp, PINS[n - 1]);
      if i.port != port then DirectedWord(esdp, port, n - 1)
      else MoveBit(DirectedWord(esdp, port, n - 1), i.dir, i.output)
  }

  lemma DirectedWordIsPortWord(esdp: Word, port: int)
    requires port == 0 || port == 1
    ensures DirectedWord(esdp, port, 6) == PortWord(esdp, port)
  {
    assert DirectedWord(esdp, port, 0) == esdp && PINS[0] == Out(ADO0);
    var w1 := DirectedWord(esdp, port, 1);
    assert w1 == if port == 0 then esdp + {10} else esdp;
    var w2 := DirectedWord(esdp, port, 2);
    assert w2 == if port == 0 then w1 + {11} else esdp;
    var w3 := DirectedWord(esdp, port, 3);
    assert w3 == if port == 0 then w2 + {8} else esdp;
    var w4 := DirectedWord(esdp, port, 4);
    assert w4 == if port == 0 then w3 else esdp + {8};
    var w5 := DirectedWord(esdp, port, 5);
    assert w5 == if port == 0 then w3 else w4 - {10};
    assert DirectedWord(esdp, port, 6) == if port == 0 then w3 else w5 - {11};
  }

  lemma EsdpCheck(b: Board, port: int)
    requires port == 0 || port == 1
    ensures var esdp := Sense(Esdp, b, port, EsdpReg);
      SecondByte(esdp) == SecondByte(PortWord(esdp, port)) <==> PortRight(Essence(ViewOf(Esdp, b)), port)
  {
    hide Shown;
    var esdp := Sense(Esdp, b, port, EsdpReg);
    assert forall n :: n in SecondByte(esdp) <==> n in esdp && 8 <= n < 16;
    assert forall n :: n in SecondByte(PortWord(esdp, port)) <==> n in PortWord(esdp, port) && 8 <= n < 16;
    assert 8 in esdp <==> 8 in SecondByte(esdp);
    assert 10 in esdp <==> 10 in SecondByte(esdp);
    assert 11 in esdp <==> 11 in SecondByte(esdp);
    if PortRight(Essence(ViewOf(Esdp, b)), port) {
      assert PortWord(esdp, port) == esdp;
    }
  }

  lemma EsdpPokeValid(b1: Board, b2: Board, port: int)
    requires port == 0 || port == 1
    requires PinView.Valid(ViewOf(Esdp, b1)) && PinView.Valid(ViewOf(Esdp, b2))
    ensures PinView.Valid(ViewOf(Esdp, Poke(Esdp, b2, port, EsdpReg, PortWord(Sense(Esdp, b1, port, EsdpReg), port))))
  {
    hide Shown, Observe, Sense;
    var val := PortWord(Sense(Esdp, b1, port, EsdpReg), port);
    ObserveSees(b2.cpld, Pads(ViewOf(Esdp, Poke(Esdp, b2, port, EsdpReg, val))));
  }

  lemma EsdpPokeRepairs(b: Board, port: int)
    requires port == 0 || port == 1
    requires PinView.Valid(ViewOf(Esdp, b))
    ensures var r := Poke(Esdp, b, port, EsdpReg, PortWord(Sense(Esdp, b, port, EsdpReg), port));
      Essence(ViewOf(Esdp, r)) == RepairedPort(Essence(ViewOf(Esdp, b)), port)
  {
    hide Shown, Observe, Sense;
    var esdp := Sense(Esdp, b, port, EsdpReg);
    var before := Stored(b, port, EsdpReg);
    SenseDiffersInInputs(Esdp, b, port, EsdpReg);
    var val := PortWord(esdp, port);
    forall n ensures n in val - ESDP_PINS <==> n in before - ESDP_PINS {
      assert n !in ESDP_PINS ==> (n in esdp <==> n in before);
    }
    assert val - ESDP_PINS == before - ESDP_PINS;
  }

  lemma EsdpPoke(b: Board, gap: Gap, port: int)
    requires port == 0 || port == 1
    requires PinView.Valid(ViewOf(Esdp, b))
    ensures var r := Poke(Esdp, Hit(Esdp, b, gap), port, EsdpReg, PortWord(Sense(Esdp, b, port, EsdpReg), port));
      && PinView.Valid(ViewOf(Esdp, r))
      && (gap == [] ==> Essence(ViewOf(Esdp, r)) == RepairedPort(Essence(ViewOf(Esdp, b)), port))
  {
    assert gap == [] ==> Hit(Esdp, b, gap) == b;
    hide Shown, Observe, Sense, ViewOf, Hit, Poke, PortWord;
    HitLosesOutputs(Esdp, b, gap);
    EsdpPokeValid(b, Hit(Esdp, b, gap), port);
    EsdpPokeRepairs(b, port);
  }

  lemma SampledSlicesMakeByte(byte: bv8, t0: bv8, t1: bv8, t2: bv8, t3: bv8)
    ensures
      && t0 == GetSlice(byte, Index(0)) & 3 && t1 == GetSlice(byte, Index(1)) & 3
      && t2 == GetSlice(byte, Index(2)) & 3 && t3 == GetSlice(byte, Index(3)) & 3
      ==> (t0 & 3) | ((t1 & 3) << 2) | ((t2 & 3) << 4) | ((t3 & 3) << 6) == byte
  {
  }

  predicate EndsWith<T(==)>(s: seq<T>, tail: seq<T>) {
    |tail| <= |s| && s[|s| - |tail|..] == tail
  }

  lemma AppendedTail<T>(s: seq<T>, tail: seq<T>)
    ensures EndsWith(s + tail, tail)
  {
  }

  lemma StoredByte(m: Memory, a: int, data: bv8)
    ensures Reg(m[a := data], a) == data
  {
  }

  lemma FourLong(addr: bv8, data: bv8)
    ensures |FourCommits(addr, data)| == 4
  {
  }

  /** What cpld_sdp_kick stores: one of the two upper slices of CSR; nothing for a segment beyond 3. */
  function KickCommits(segment: int): seq<Commit> {
    match segment
    case 0 => [Commit(7, 2, 1)]
    case 1 => [Commit(7, 2, 2)]
    case 2 => [Commit(7, 3, 1)]
    case 3 => [Commit(7, 3, 2)]
    case _ => []
  }

  function KickMemory(m: Memory, segment: int): Memory {
    if KickCommits(segment) == [] then m else Store(m, KickCommits(segment)[0])
  }

  lemma KickTransmits(c: Cpld, segment: int)
    requires 0 <= segment < 4
    ensures var r := Transmit(c, CSR, if segment < 2 then 2 else 3, if segment % 2 == 0 then 1 else 2);
      r.commits == c.commits + KickCommits(segment) && r.mem == KickMemory(c.mem, segment)
  {
    hide Transmit, Store;
    TransmitCommitsOnce(c, CSR, if segment < 2 then 2 else 3, if segment % 2 == 0 then 1 else 2);
    assert Wired(CSR) == 7 && Index(2) == 2 && Index(3) == 3;
  }

  /** The kicked slice spells exactly the bit the byte-wide backends write, 0x10 << segment, and the
      mailbox bits in the low nibble of CSR stay as they are. */
  lemma KickSetsItsBit(csr: bv8, segment: int)
    requires 0 <= segment < 4
    ensures var k := KickCommits(segment)[0];
      var bit: bv8 := if segment == 0 then 0x10 else if segment == 1 then 0x20 else if segment == 2 then 0x40 else 0x80;
      var r := PutSlice(csr, k.bsl, k.dat);
      && r & 0x0F == csr & 0x0F
      && r & (if segment < 2 then 0x30 else 0xC0) == bit
      && r & (if segment < 2 then 0xC0 else 0x30) == csr & (if segment < 2 then 0xC0 else 0x30)
  {
  }

  function PowerOffFix(m: Memory): Memory {
    var m1 := m[1 := 0x55];
    m1[8 := Reg(m1, 8) | 0x02]
  }

  /** The fix sets register 1 and one bit of register 8, and nothing else. */
  lemma PowerOffFixExactly(m: Memory, addr: int)
    ensures var r := PowerOffFix(m);
      && Reg(r, 1) == 0x55
      && Reg(r, 8) & 0x02 == 0x02 && Reg(r, 8) & 0xFD == Reg(m, 8) & 0xFD
      && (addr != 1 && addr != 8 ==> Reg(r, addr) == Reg(m, addr))
  {
  }

  // The trace of register accesses.

  /** What is done at the registers: a read, a write, a read-modify-write that moves a pin; and a change that
      something behind the CPLD makes. */
  datatype Touch =
    | ReadAt(port: int, reg: Register)
    | WriteAt(port: int, reg: Register, val: Word)
    | Move(o: OutPin, level: bool)
    | Change(addr: int, value: bv8)

  /** The board and the strikes to come. */
  datatype Situation = Situation(board: Board, onRead: seq<Gap>, onWrite: seq<Gap>)

  function Effect(k: Kind, s: Situation, a: Touch): Situation {
    match a
    case ReadAt(port, reg) => Situation(Hit(k, s.board, Next(s.onRead)), Rest(s.onRead), s.onWrite)
    case WriteAt(port, reg, val) =>
      Situation(Poke(k, Hit(k, s.board, Next(s.onWrite)), port, reg, val), s.onRead, Rest(s.onWrite))
    case Move(o, level) =>
      Situation(Rmw(k, s.board, Next(s.onRead), Next(s.onWrite), o, level), Rest(s.onRead), Rest(s.onWrite))
    case Change(addr, value) => s.(board := Changed(s.board, addr, value))
  }

  function Changed(b: Board, addr: int, value: bv8): Board {
    b.(cpld := b.cpld.(mem := b.cpld.mem[addr := value]))
  }

  function After(k: Kind, s: Situation, trace: seq<Touch>): Situation
    decreases |trace|
  {
    if trace == [] then s else Effect(k, After(k, s, trace[..|trace| - 1]), trace[|trace| - 1])
  }

  /** A move that the strikes due make insidious. */
  predicate Spoilt(k: Kind, s: Situation, a: Touch) {
    a.Move? && Misleads(k, s.board, Next(s.onRead), Next(s.onWrite), a.o, a.level)
  }

  /** How many such moves a trace has. */
  function Spoils(k: Kind, s: Situation, trace: seq<Touch>): nat
    decreases |trace|
  {
    if trace == [] then 0
    else
      var earlier, a := trace[..|trace| - 1], trace[|trace| - 1];
      Spoils(k, s, earlier) + if Spoilt(k, After(k, s, earlier), a) then 1 else 0
  }

  /** The moves of a trace, in order. */
  function Motions(trace: seq<Touch>): seq<Touch>
    decreases |trace|
  {
    if trace == [] then []
    else
      var a := trace[|trace| - 1];
      Motions(trace[..|trace| - 1]) + if a.Move? then [a] else []
  }

  lemma TraceGrows(k: Kind, s: Situation, trace: seq<Touch>, a: Touch)
    ensures After(k, s, trace + [a]) == Effect(k, After(k, s, trace), a)
    ensures Spoils(k, s, trace + [a]) == Spoils(k, s, trace) + if Spoilt(k, After(k, s, trace), a) then 1 else 0
    ensures Motions(trace + [a]) == Motions(trace) + if a.Move? then [a] else []
  {
    hide Effect, Spoilt;
    assert (trace + [a])[..|trace|] == trace;
  }

  // The moves of the driver's transfers.

  const RAISES: seq<Touch> := [Move(STB0, true), Move(STB1, true)]

  function AddressHigh(addr: bv8): seq<Touch> {
    [Move(ADO1, addr & 8 != 0), Move(ADO0, addr & 4 != 0), Move(STB0, false), Move(STB1, false)]
  }

  function AddressLow(addr: bv8): seq<Touch> {
    [Move(ADO1, addr & 2 != 0), Move(ADO0, addr & 1 != 0), Move(STB0, true)]
  }

  function SliceIndex(bsl: bv8): seq<Touch> {
    [Move(ADO1, bsl & 2 != 0), Move(ADO0, bsl & 1 != 0), Move(STB0, false)]
  }

  function DataBits(dat: bv8): seq<Touch> {
    [Move(ADO1, dat & 2 != 0), Move(ADO0, dat & 1 != 0), Move(STB1, true), Move(STB1, false)]
  }

  function Header(addr: bv8, bsl: bv8): seq<Touch> {
    RAISES + AddressHigh(addr) + AddressLow(addr) + SliceIndex(bsl)
  }

  function Transmission(addr: bv8, bsl: bv8, dat: bv8): seq<Touch> {
    Header(addr, bsl) + DataBits(dat)
  }

  function Sending(addr: bv8, data: bv8): seq<Touch> {
    Transmission(addr, 0, (data >> 0) & 3) + Transmission(addr, 1, (data >> 2) & 3)
    + Transmission(addr, 2, (data >> 4) & 3) + Transmission(addr, 3, (data >> 6) & 3)
  }

  function Receiving(addr: bv8): seq<Touch> {
    Header(addr, 0) + Header(addr, 1) + Header(addr, 2) + Header(addr, 3)
  }

  function Kicking(segment: int): seq<Touch> {
    match segment
    case 0 => Transmission(CSR, 2, 1)
    case 1 => Transmission(CSR, 2, 2)
    case 2 => Transmission(CSR, 3, 1)
    case 3 => Transmission(CSR, 3, 2)
    case _ => []
  }

  function Times(attempt: seq<Touch>, n: nat): seq<Touch> {
    if n == 0 then [] else Times(attempt, n - 1) + attempt
  }

  lemma TimesGrows(before: seq<Touch>, attempt: seq<Touch>, n: nat)
    ensures before + Times(attempt, n) + attempt == before + Times(attempt, n + 1)
    ensures before + Times(attempt, 0) == before
  {
  }

  /** One card's control registers. onRead and onWrite schedule the strikes to come: each ioread32 and each
      iowrite32 consumes the next entry of its list, and an exhausted list is calm. The ghost fields, which
      no step consults: origin and since fix a point of the log of commits, trace is all that has been
      done at the registers since the situation start, misleads counts its spoilt moves, and exposed the
      accesses made without the lock. */
  class PinBus {
    const kind: Kind
    var board: Board
    var onRead: seq<Gap>
    var onWrite: seq<Gap>
    var locked: bool
    ghost var origin: Memory
    ghost var since: nat
    ghost const start: Situation
    ghost var trace: seq<Touch>
    ghost var misleads: nat
    ghost var exposed: nat

    /** The CPLD's registers are what its log says, and the board is what the trace makes of it. */
    ghost predicate Valid()
      reads this`board, this`onRead, this`onWrite, this`origin, this`since, this`trace, this`misleads
    {
      PinView.Valid(ViewOf(kind, board)) && Logged(origin, since, board.cpld) && Traced()
    }

    /** The trace accounts for the board, for the strikes that have come and for each spoilt move. */
    ghost predicate Traced()
      reads this`board, this`onRead, this`onWrite, this`trace, this`misleads
    {
      Now() == After(kind, start, trace) && misleads == Spoils(kind, start, trace)
    }

    function Now(): Situation
      reads this`board, this`onRead, this`onWrite
    {
      Situation(board, onRead, onWrite)
    }

    ghost predicate Driving()
      reads this`board
    {
      OutputsRight(ViewOf(kind, board))
    }

    ghost function StrikesLeft(): nat
      reads this`onRead, this`onWrite
    {
      Strikes(onRead) + Strikes(onWrite)
    }

    ghost function Bystanders(): (Nic, Nic)
      reads this`board
    {
      Foreign(ViewOf(kind, board))
    }

    method IoRead32(port: int, reg: Register) returns (val: Word)
      modifies this`board, this`onRead, this`exposed
      ensures board == Hit(kind, old(board), Next(old(onRead)))
      ensures onRead == Rest(old(onRead)) && exposed == old(exposed) + if locked then 0 else 1
      ensures val == Sense(kind, board, port, reg)
    {
      if onRead != [] {
        board := Hit(kind, board, onRead[0]);
        onRead := onRead[1..];
      }
      val := Sense(kind, board, port, reg);
      exposed := exposed + if locked then 0 else 1;
    }

    method IoWrite32(val: Word, port: int, reg: Register)
      modifies this`board, this`onWrite, this`exposed
      ensures board == Poke(kind, Hit(kind, old(board), Next(old(onWrite))), port, reg, val)
      ensures onWrite == Rest(old(onWrite)) && exposed == old(exposed) + if locked then 0 else 1
    {
      if onWrite != [] {
        board := Hit(kind, board, onWrite[0]);
        onWrite := onWrite[1..];
      }
      board := Poke(kind, board, port, reg, val);
      exposed := exposed + if locked then 0 else 1;
    }

    /** What every access to the pins keeps: an output once seen undriven stays so until it is
        repaired, and only a strike changes the directions or a register bit of another purpose. */
    twostate predicate Keeps()
      reads this
    {
      && Valid()
      && old(board.cpld.commits) <= board.cpld.commits
      && (Driving() ==> old(Driving()))
      && StrikesLeft() <= old(StrikesLeft()) && misleads >= old(misleads) && old(trace) <= trace && Guarded()
      && (Tame(kind, old(onWrite)) ==> Tame(kind, onWrite))
      && (StrikesLeft() == old(StrikesLeft()) ==>
            Driving() == old(Driving()) && Bystanders() == old(Bystanders()) && misleads == old(misleads))
    }

    /** Under the lock no access is made without it. */
    twostate predicate Guarded()
      reads this`locked, this`exposed
    {
      locked && old(locked) ==> exposed == old(exposed)
    }

    /** These are the moves that were made. */
    twostate predicate Runs(moves: seq<Touch>)
      reads this`trace
    {
      Motions(trace) == Motions(old(trace)) + moves
    }

    /** Just these moves were made, some number of times. */
    twostate predicate RunsAgain(moves: seq<Touch>)
      reads this`trace
    {
      exists n: nat | n > 0 :: Motions(trace) == Motions(old(trace)) + Times(moves, n)
    }

    /** All outputs are driven and no insidious strike came: the CPLD saw what it was meant to. */
    twostate predicate Clean()
      reads this`board, this`misleads
    {
      Driving() && misleads == old(misleads)
    }

    /** Tame gaps do not mislead. */
    twostate predicate Unmisled()
      reads this`misleads
    {
      Tame(kind, old(onWrite)) ==> misleads == old(misleads)
    }

    /** What one bit_up or bit_down does. */
    twostate predicate Moves(o: OutPin, level: bool)
      reads this
    {
      && Keeps()
      && trace == old(trace) + [Move(o, level)] && Now() == Effect(kind, old(Now()), Move(o, level))
      && misleads == old(misleads) + (if Spoilt(kind, old(Now()), Move(o, level)) then 1 else 0)
      && Runs([Move(o, level)])
      && (Clean() ==>
            board.cpld == Drive(old(board.cpld), o, level)
            && board.cpld.seen == WithLevel(old(board.cpld.seen), o, level))
      && ((old(Driving()) ==> GlitchSafe(old(board.cpld), o, level)) ==> Unmisled())
    }

    method BitUp(o: OutPin)
      requires Valid()
      modifies this`board, this`onRead, this`onWrite, this`trace, this`exposed, this`misleads
      ensures Moves(o, true)
    {
      hide OutputsRight, Drive, GlitchSafe, Foreign, Hit, Poke, Sense, Logged, Tame, TameGap, Misleads,
        PinView.Valid, After, Spoils, Motions;
      ghost var b, s1, s2 := board, Next(onRead), Next(onWrite);
      var i := Info(kind, Out(o));
      var val := IoRead32(i.port, i.reg);
      val := val + {i.data};
      IoWrite32(val, i.port, i.reg);
      if Misleads(kind, b, s1, s2, o, true) {
        misleads := misleads + 1;
      }
      trace := trace + [Move(o, true)];
      TraceGrows(kind, start, old(trace), Move(o, true));
      MoveKeeps(b, old(onRead), old(onWrite), o, true);
    }

    method BitDown(o: OutPin)
      requires Valid()
      modifies this`board, this`onRead, this`onWrite, this`trace, this`exposed, this`misleads
      ensures Moves(o, false)
    {
      hide OutputsRight, Drive, GlitchSafe, Foreign, Hit, Poke, Sense, Logged, Tame, TameGap, Misleads,
        PinView.Valid, After, Spoils, Motions;
      ghost var b, s1, s2 := board, Next(onRead), Next(onWrite);
      var i := Info(kind, Out(o));
      var val := IoRead32(i.port, i.reg);
      val := val - {i.data};
      IoWrite32(val, i.port, i.reg);
      if Misleads(kind, b, s1, s2, o, false) {
        misleads := misleads + 1;
      }
      trace := trace + [Move(o, false)];
      TraceGrows(kind, start, old(trace), Move(o, false));
      MoveKeeps(b, old(onRead), old(onWrite), o, false);
    }

    /** Everything known about one move, for the two methods above. */
    lemma MoveKeeps(b: Board, onRead0: seq<Gap>, onWrite0: seq<Gap>, o: OutPin, level: bool)
      requires PinView.Valid(ViewOf(kind, b)) && Logged(origin, since, b.cpld)
      ensures
        var s1, s2 := Next(onRead0), Next(onWrite0);
        var v, r := ViewOf(kind, b), Rmw(kind, b, s1, s2, o, level);
        var w := ViewOf(kind, r);
        && PinView.Valid(w) && Logged(origin, since, r.cpld) && b.cpld.commits <= r.cpld.commits
        && (OutputsRight(w) ==> OutputsRight(v))
        && (OutputsRight(w) && !Misleads(kind, b, s1, s2, o, level) ==>
              r.cpld == Drive(b.cpld, o, level) && r.cpld.seen == WithLevel(b.cpld.seen, o, level))
        && (s1 == [] && s2 == [] ==>
              OutputsRight(w) == OutputsRight(v) && Foreign(w) == Foreign(v) && !Misleads(kind, b, s1, s2, o, level))
        && (Tame(kind, onWrite0) ==> Tame(kind, Rest(onWrite0)))
        && (Tame(kind, onWrite0) && (OutputsRight(v) ==> GlitchSafe(b.cpld, o, level)) ==>
            !Misleads(kind, b, s1, s2, o, level))
        && Strikes(onRead0) == |s1| + Strikes(Rest(onRead0)) && Strikes(onWrite0) == |s2| + Strikes(Rest(onWrite0))
    {
      hide OutputsRight, Drive, GlitchSafe, Foreign, Hit, Poke, Sense, Logged, Tame, TameGap, Misleads,
        PinView.Valid, Rmw;
      var s1, s2 := Next(onRead0), Next(onWrite0);
      RmwMoves(kind, b, s1, s2, o, level);
      RmwLogs(kind, b, s1, s2, o, level, origin, since);
      DriveSees(b.cpld, o, level);
      TameOn(kind, onWrite0);
      if TameGap(kind, s2) && (OutputsRight(ViewOf(kind, b)) ==> GlitchSafe(b.cpld, o, level)) {
        TameGapIsHarmless(kind, b, s1, s2, o, level);
      }
      NextConsumed(onRead0);
      NextConsumed(onWrite0);
    }

    method BitSet(o: OutPin, value: bool)
      requires Valid()
      modifies this`board, this`onRead, this`onWrite, this`trace, this`exposed, this`misleads
      ensures Moves(o, value)
    {
      if value {
        BitUp(o);
      } else {
        BitDown(o);
      }
    }

    // The phases of cpld_sdp_tx_two and cpld_sdp_rx_two between two udelay(1) calls.

    method RaiseStrobes()
      requires Valid()
      modifies this`board, this`onRead, this`onWrite, this`trace, this`exposed, this`misleads
      ensures Keeps() && Runs(RAISES)
      ensures Clean() ==> board.cpld == Preamble(old(board.cpld)) && board.cpld.seen.stb0 && board.cpld.seen.stb1
      ensures Unmisled()
    {
      hide Motions, Effect, Spoilt, Now, Strikes, Tame, Driving, Bystanders, StrikesLeft, Valid, Drive;
      BitUp(STB0);
      BitUp(STB1);
    }

    method SendAddressHigh(addr: bv8)
      requires Valid()
      modifies this`board, this`onRead, this`onWrite, this`trace, this`exposed, this`misleads
      ensures Keeps() && Runs(AddressHigh(addr))
      ensures (old(Driving()) ==> old(board.cpld.seen.stb1)) ==> Unmisled()
      ensures Clean() && old(board.cpld.seen.stb0) && old(board.cpld.seen.stb1) ==>
                board.cpld == LatchHigh(old(board.cpld), addr) && !board.cpld.seen.stb0 && !board.cpld.seen.stb1
    {
      hide Motions, Effect, Spoilt, Now, Strikes, Tame, Driving, Bystanders, StrikesLeft, Valid, Drive;
      BitSet(ADO1, addr & 8 != 0);
      BitSet(ADO0, addr & 4 != 0);
      BitDown(STB0);
      BitDown(STB1);
    }

    method SendAddressLow(addr: bv8)
      requires Valid()
      modifies this`board, this`onRead, this`onWrite, this`trace, this`exposed, this`misleads
      ensures Keeps() && Runs(AddressLow(addr))
      ensures Unmisled()
      ensures Clean() && !old(board.cpld.seen.stb1) ==>
                board.cpld == LatchLow(old(board.cpld), addr) && board.cpld.seen.stb0 && !board.cpld.seen.stb1
    {
      hide Motions, Effect, Spoilt, Now, Strikes, Tame, Driving, Bystanders, StrikesLeft, Valid, Drive;
      BitSet(ADO1, addr & 2 != 0);
      BitSet(ADO0, addr & 1 != 0);
      BitUp(STB0);
    }

    method SendSlice(bsl: bv8)
      requires Valid()
      modifies this`board, this`onRead, this`onWrite, this`trace, this`exposed, this`misleads
      ensures Keeps() && Runs(SliceIndex(bsl))
      ensures Unmisled()
      ensures Clean() && !old(board.cpld.seen.stb1) ==>
                board.cpld == LatchSlice(old(board.cpld), bsl) && !board.cpld.seen.stb0 && !board.cpld.seen.stb1
    {
      hide Motions, Effect, Spoilt, Now, Strikes, Tame, Driving, Bystanders, StrikesLeft, Valid, Drive;
      BitSet(ADO1, bsl & 2 != 0);
      BitSet(ADO0, bsl & 1 != 0);
      BitDown(STB0);
    }

    method SendData(dat: bv8)
      requires Valid()
      modifies this`board, this`onRead, this`onWrite, this`trace, this`exposed, this`misleads
      ensures Keeps() && Runs(DataBits(dat))
      ensures (old(Driving()) ==> !old(board.cpld.seen.stb1)) ==> Unmisled()
      ensures Clean() && !old(board.cpld.seen.stb0) && !old(board.cpld.seen.stb1) ==>
                board.cpld == StrobeData(old(board.cpld), dat) && !board.cpld.seen.stb0 && !board.cpld.seen.stb1
    {
      hide Motions, Effect, Spoilt, Now, Strikes, Tame, Driving, Bystanders, StrikesLeft, Valid, Drive;
      BitSet(ADO1, dat & 2 != 0);
      BitSet(ADO0, dat & 1 != 0);
      BitUp(STB1);
      BitDown(STB1);
    }

    /** cpld_sdp_tx_two: if the outputs are still driven afterwards and no strike was insidious, the CPLD saw the
        whole slice. */
    method TxTwo(addr: bv8, bsl: bv8, dat: bv8)
      requires Valid()
      modifies this`board, this`onRead, this`onWrite, this`trace, this`exposed, this`misleads
      ensures Keeps() && Runs(Transmission(addr, bsl, dat))
      ensures Unmisled()
      ensures Clean() ==> board.cpld == Transmit(old(board.cpld), addr, bsl, dat)
    {
      hide Motions, AddressHigh, AddressLow, SliceIndex, DataBits, Effect, Spoilt, Now, Strikes, Tame, GlitchSafe,
        Driving, Bystanders, StrikesLeft, Valid, Preamble, LatchHigh, LatchLow, LatchSlice, StrobeData;
      RaiseStrobes();
      SendAddressHigh(addr);
      SendAddressLow(addr);
      SendSlice(bsl);
      SendData(dat);
    }

    method BitGet(p: Pin) returns (level: bool)
      requires Valid() && !p.Out?
      modifies this`board, this`onRead, this`trace, this`exposed
      ensures Keeps() && Runs([])
      ensures misleads == old(misleads)
      ensures Driving() ==>
        board.cpld == old(board.cpld) && level == (Shown(board.cpld) & (if p.DI0? then 1 else 2) != 0)
    {
      hide Shown, Drive, Logged, Tame, ViewOf, Hit, PinView.Valid, StruckBy, After, Spoils, Motions;
      var i := Info(kind, p);
      var val := IoRead32(i.port, i.reg);
      level := i.data in val;
      trace := trace + [ReadAt(i.port, i.reg)];
      TraceGrows(kind, start, old(trace), ReadAt(i.port, i.reg));
      HitLogs(kind, old(board), Next(old(onRead)), origin, since);
      GetSenses(kind, old(board), Next(old(onRead)), p);
      NextConsumed(old(onRead));
    }

    /** cpld_sdp_rx_two: if the outputs are still driven afterwards and no strike was insidious, val is the
        addressed slice. */
    method RxTwo(addr: bv8, bsl: bv8) returns (val: bv8)
      requires Valid()
      modifies this`board, this`onRead, this`onWrite, this`trace, this`exposed, this`misleads
      ensures Keeps() && Runs(Header(addr, bsl))
      ensures Unmisled()
      ensures Clean() ==> board.cpld == Select(old(board.cpld), addr, bsl) && val == Shown(board.cpld) & 3
    {
      hide Motions, AddressHigh, AddressLow, SliceIndex, Effect, Spoilt, Now, Strikes, Tame, GlitchSafe, Driving,
        Bystanders, StrikesLeft, Valid, Preamble, LatchHigh, LatchLow, LatchSlice, StrobeData;
      RaiseStrobes();
      SendAddressHigh(addr);
      SendAddressLow(addr);
      SendSlice(bsl);
      var high := BitGet(DI1);
      var low := BitGet(DI0);
      val := (if high then 2 else 0) | (if low then 1 else 0);
    }

    ghost function Lines(): (Port, Port)
      reads this`board
    {
      Essence(ViewOf(kind, board))
    }

    /** The body of the loop of cpld_sdp_set_pin_direction (module/cpld_sdp.c:33-45). */
    method CheckPin(p: Pin, rv0: int) returns (rv: int)
      requires Valid() && (rv0 == 0 || rv0 == -1)
      modifies this`board, this`onRead, this`onWrite, this`trace, this`exposed
      ensures Valid() && (rv == 0 || rv == -1)
      ensures StrikesLeft() <= old(StrikesLeft()) && old(trace) <= trace && Runs([])
      ensures if locked then exposed == old(exposed) else exposed > old(exposed)
      ensures |trace| == |old(trace)| + if rv == 0 then 1 else 2
      ensures old(board.cpld.commits) <= board.cpld.commits && (Tame(kind, old(onWrite)) ==> Tame(kind, onWrite))
      ensures rv == 0 ==> |board.cpld.commits| <= |old(board.cpld.commits)| + (old(StrikesLeft()) - StrikesLeft())
      ensures rv == 0 ==>
        rv0 == 0 && DirectionOf(old(Lines()), p) == Info(kind, p).output && NoNewOutputs(old(Lines()), Lines())
      ensures StrikesLeft() == old(StrikesLeft()) ==>
                && Lines() == WithDirection(old(Lines()), p, Info(kind, p).output)
                && (rv == 0 <==> rv0 == 0 && DirectionOf(old(Lines()), p) == Info(kind, p).output)
                && (rv == 0 ==> board == old(board))
    {
      hide Poke, Hit, Sense, PinView.Valid, Info, ViewOf, Essence, DirectionOf, WithDirection, NoNewOutputs, Logged,
        Tame, After, Spoils, Motions, Rmw, Misleads;
      rv := rv0;
      var i := Info(kind, p);
      ghost var b, s1 := board, Next(onRead);
      var val := IoRead32(i.port, i.reg);
      ghost var b1, sensed := board, val;
      trace := trace + [ReadAt(i.port, i.reg)];
      TraceGrows(kind, start, old(trace), ReadAt(i.port, i.reg));
      CheckRead(kind, b, s1, p);
      HitLogs(kind, b, s1, origin, since);
      NextConsumed(old(onRead));
      HitCalm(kind, b);
      RightAlready(Essence(ViewOf(kind, b1)), p);
      if (i.dir in val) != i.output {
        val := if i.output then val + {i.dir} else val - {i.dir};
        if rv == 0 {
          rv := -1;
        }
      }
      if rv != 0 {
        ghost var s2 := Next(onWrite);
        TameOn(kind, onWrite);
        IoWrite32(val, i.port, i.reg);
        trace := trace + [WriteAt(i.port, i.reg, val)];
        TraceGrows(kind, start, old(trace) + [ReadAt(i.port, i.reg)], WriteAt(i.port, i.reg, val));
        assert val == MoveBit(sensed, i.dir, i.output);
        CheckWrite(kind, b1, s2, p);
        HitLogs(kind, b1, s2, origin, since);
        PokeLogs(kind, Hit(kind, b1, s2), i.port, i.reg, val, origin, since);
        NextConsumed(old(onWrite));
      }
    }

    /** cpld_sdp_set_pin_direction of module/cpld_sdp.c: 0 means that every direction was right when
        the check began. Without a strike in between, 0 is returned exactly in that case and nothing
        is written; otherwise every direction is right afterwards, and nothing but directions changed. */
    method SetPinDirection() returns (rv: int)
      requires Valid() && kind.Sdp?
      modifies this`board, this`onRead, this`onWrite, this`trace, this`exposed
      ensures Repairs(rv)
    {
      hide Info, ViewOf, DirectionOf, WithDirection, After, Spoils, Motions, Tame, StrikesLeft, Logged;
      rv := 0;
      for i := 0 to |PINS|
        invariant Valid() && (rv == 0 || rv == -1)
        invariant StrikesLeft() <= old(StrikesLeft()) && old(trace) <= trace && Runs([])
        invariant if locked then exposed == old(exposed) else exposed >= old(exposed) + i
        invariant rv == 0 ==> |trace| == |old(trace)| + i
        invariant old(board.cpld.commits) <= board.cpld.commits && (Tame(kind, old(onWrite)) ==> Tame(kind, onWrite))
        invariant rv == 0 ==> |board.cpld.commits| <= |old(board.cpld.commits)| + (old(StrikesLeft()) - StrikesLeft())
        invariant rv == 0 ==> NoNewOutputs(old(Lines()), Lines())
        invariant rv == 0 ==> forall j :: 0 <= j < i ==>
          DirectionOf(old(Lines()), PINS[j]) == Info(kind, PINS[j]).output
        invariant StrikesLeft() == old(StrikesLeft()) ==>
                    && Lines() == Partial(kind, old(Lines()), i)
                    && (rv == 0 ==> board == old(board))
                    && (rv != 0 ==>
                          exists j :: 0 <= j < i && DirectionOf(old(Lines()), PINS[j]) != Info(kind, PINS[j]).output)
      {
        ghost var lines := Lines();
        rv := CheckPin(PINS[i], rv);
        if rv == 0 {
          RightBefore(kind, ViewOf(kind, old(board)), lines, PINS[i]);
        }
      }
      PartialIsRepaired(kind, old(Lines()));
      AllRowsRight(kind, ViewOf(kind, old(board)));
    }

    /** The contract both direction repairs meet. */
    twostate predicate Repairs(rv: int)
      reads this
    {
      && Valid() && (rv == 0 || rv == -1)
      && StrikesLeft() <= old(StrikesLeft()) && old(trace) <= trace && Runs([])
      && (if locked then exposed == old(exposed) else exposed > old(exposed))
      && (rv == 0 ==> |trace| == |old(trace)| + if kind.Sdp? then 6 else 2)
      && old(board.cpld.commits) <= board.cpld.commits && (Tame(kind, old(onWrite)) ==> Tame(kind, onWrite))
      && (rv == 0 ==> |board.cpld.commits| <= |old(board.cpld.commits)| + (old(StrikesLeft()) - StrikesLeft()))
      && (rv == 0 ==> old(Driving()))
      && (StrikesLeft() == old(StrikesLeft()) ==>
            && Driving()
            && (rv == 0 <==> old(Driving()))
            && (rv == 0 ==> board == old(board))
            && Lines() == Repaired(old(Lines())))
    }

    /** The loop over the table in cpld_sdp_set_pin_direction of module/cpld_esdp.c. */
    method Directed(esdp: Word, port: int) returns (val: Word)
      requires kind.Esdp? && (port == 0 || port == 1)
      ensures val == PortWord(esdp, port)
    {
      val := esdp;
      for i := 0 to |PINS|
        invariant val == DirectedWord(esdp, port, i)
      {
        if Info(kind, PINS[i]).port != port {
          continue;
        }
        if Info(kind, PINS[i]).output {
          val := val + {Info(kind, PINS[i]).dir};
        } else {
          val := val - {Info(kind, PINS[i]).dir};
        }
      }
      DirectedWordIsPortWord(esdp, port);
    }

    /** cpld_sdp_set_pin_direction of module/cpld_esdp.c. */
    method SetPortDirection(port: int) returns (rv: int)
      requires Valid() && kind.Esdp? && (port == 0 || port == 1)
      modifies this`board, this`onRead, this`onWrite, this`trace, this`exposed
      ensures Valid() && (rv == 0 || rv == -1)
      ensures StrikesLeft() <= old(StrikesLeft()) && old(trace) <= trace && Runs([])
      ensures if locked then exposed == old(exposed) else exposed > old(exposed)
      ensures |trace| == |old(trace)| + if rv == 0 then 1 else 2
      ensures old(board.cpld.commits) <= board.cpld.commits && (Tame(kind, old(onWrite)) ==> Tame(kind, onWrite))
      ensures rv == 0 ==> |board.cpld.commits| <= |old(board.cpld.commits)| + (old(StrikesLeft()) - StrikesLeft())
      ensures rv == 0 ==> PortRight(old(Lines()), port) && NoNewOutputs(old(Lines()), Lines())
      ensures StrikesLeft() == old(StrikesLeft()) ==>
                && Lines() == RepairedPort(old(Lines()), port)
                && (rv == 0 <==> PortRight(old(Lines()), port))
                && (rv == 0 ==> board == old(board))
    {
      hide PinView.Valid, ViewOf, Essence, Logged, Tame, Poke, Hit, Sense, RepairedPort, PortWord, SecondByte,
        PortRight, NoNewOutputs, After, Spoils, Motions, Rmw, Misleads;
      ghost var b, s1 := board, Next(onRead);
      var esdp := IoRead32(port, EsdpReg);
      var val := Directed(esdp, port);
      ghost var b1 := board;
      trace := trace + [ReadAt(port, EsdpReg)];
      TraceGrows(kind, start, old(trace), ReadAt(port, EsdpReg));
      CheckRead(kind, b, s1, DI0);
      HitCalm(kind, b);
      HitLogs(kind, b, s1, origin, since);
      NextConsumed(old(onRead));
      EsdpCheck(b1, port);
      if SecondByte(esdp) != SecondByte(val) {
        NextConsumed(onWrite);
        ghost var s2 := Next(onWrite);
        TameOn(kind, onWrite);
        IoWrite32(val, port, EsdpReg);
        trace := trace + [WriteAt(port, EsdpReg, val)];
        TraceGrows(kind, start, old(trace) + [ReadAt(port, EsdpReg)], WriteAt(port, EsdpReg, val));
        EsdpPoke(b1, s2, port);
        HitLogs(kind, b1, s2, origin, since);
        PokeLogs(kind, Hit(kind, b1, s2), port, EsdpReg, val, origin, since);
        return -1;
      }
      PortRightBefore(ViewOf(kind, b), Lines(), port);
      RightPortStays(Lines(), port);
      return 0;
    }

    method InitIoDirection() returns (status: int)
      requires Valid() && kind.Esdp?
      modifies this`board, this`onRead, this`onWrite, this`trace, this`exposed
      ensures Repairs(status)
    {
      status := SetPortDirection(0);
      var rv := SetPortDirection(1);
      status := if status == 0 then rv else status;  // status |= rv, of 0 and -1
    }

    method RepairDirections() returns (rv: int)
      requires Valid()
      modifies this`board, this`onRead, this`onWrite, this`trace, this`exposed
      ensures Repairs(rv)
    {
      if kind.Sdp? {
        rv := SetPinDirection();
      } else {
        rv := InitIoDirection();
      }
    }

    // cpld_lock, cpld_trylock and cpld_unlock as a thread in process context sees them.

    method CpldLock()
      requires !locked
      modifies this`locked
      ensures locked
    {
      locked := true;
    }

    method CpldTrylock() returns (busy: bool)
      modifies this`locked
      ensures locked && busy == old(locked)
    {
      busy := locked;
      locked := true;
    }

    method CpldUnlock()
      modifies this`locked
      ensures !locked
    {
      locked := false;
    }

    /** The four transfers of one attempt of cpld_sdp_write. */
    method SendByte(addr: bv8, data: bv8)
      requires Valid()
      modifies this`board, this`onRead, this`onWrite, this`trace, this`exposed, this`misleads
      ensures Keeps() && Runs(Sending(addr, data))
      ensures Unmisled()
      ensures Clean() ==> board.cpld == TransmitByte(old(board.cpld), addr, data)
    {
      hide Motions, Transmission, Effect, Spoilt, Now, Strikes, Tame, GlitchSafe, Driving, Bystanders, StrikesLeft,
        Valid, Transmit;
      TxTwo(addr, 0, (data >> 0) & 3);
      TxTwo(addr, 1, (data >> 2) & 3);
      TxTwo(addr, 2, (data >> 4) & 3);
      TxTwo(addr, 3, (data >> 6) & 3);
      assert (data >> 0) & 3 == data & 3;
    }

    /** The four transfers of one attempt of cpld_sdp_read. */
    method ReceiveByte(addr: bv8) returns (value: bv8)
      requires Valid()
      modifies this`board, this`onRead, this`onWrite, this`trace, this`exposed, this`misleads
      ensures Keeps() && Runs(Receiving(addr))
      ensures Unmisled()
      ensures Clean() ==>
                && board.cpld.mem == old(board.cpld.mem) && board.cpld.commits == old(board.cpld.commits)
                && value == Reg(board.cpld.mem, Wired(addr))
    {
      hide Motions, Header, Effect, Spoilt, Now, Strikes, Tame, GlitchSafe, Driving, Bystanders, StrikesLeft, Valid,
        Select, Shown, Index, GetSlice, Reg, Wired;
      ghost var c0 := board.cpld;
      var tmp := RxTwo(addr, 0);
      value := tmp & 3;
      SelectSynchronises(c0, addr, 0);
      ghost var c1, t0 := board.cpld, tmp;
      tmp := RxTwo(addr, 1);
      value := value | ((tmp & 3) << 2);
      SelectSynchronises(c1, addr, 1);
      ghost var c2, t1 := board.cpld, tmp;
      tmp := RxTwo(addr, 2);
      value := value | ((tmp & 3) << 4);
      SelectSynchronises(c2, addr, 2);
      ghost var c3, t2 := board.cpld, tmp;
      tmp := RxTwo(addr, 3);
      value := value | ((tmp & 3) << 6);
      SelectSynchronises(c3, addr, 3);
      SampledSlicesMakeByte(Reg(c0.mem, Wired(addr)), t0, t1, t2, tmp);
    }

    /** cpld_sdp_write. Whatever strikes come, the call ends; sent is the device as it was when the
        transfers of the last attempt were over: unless a strike was insidious, it had stored, as the last
        thing until then and in this call, the four slices of the byte in order, so that its register held
        the byte. Afterwards it stored no more than a slice for each strike of the final check, of which
        left were to come. Without strikes nothing else changes. */
    method Write(addr: bv8, data: bv8) returns (status: int, ghost sent: Cpld, ghost left: nat)
      requires Valid() && !locked
      modifies this`board, this`onRead, this`onWrite, this`trace, this`exposed, this`misleads, this`locked
      ensures status == 0 && Valid() && !locked
      ensures StrikesLeft() <= left <= old(StrikesLeft()) && old(trace) <= trace && exposed == old(exposed)
      ensures RunsAgain(Sending(addr, data))
      ensures Follows(old(board.cpld), sent) && Follows(sent, board.cpld)
      ensures Unmisled() && (StrikesLeft() == old(StrikesLeft()) ==> misleads == old(misleads))
      ensures misleads == old(misleads) ==>
                && Reg(sent.mem, Wired(addr)) == data
                && |sent.commits| >= |old(board.cpld.commits)| + 4 && EndsWith(sent.commits, FourCommits(addr, data))
      ensures |board.cpld.commits| <= |sent.commits| + (left - StrikesLeft())
      ensures StrikesLeft() == left ==> board.cpld == sent && Driving()
      ensures StrikesLeft() == old(StrikesLeft()) && old(Driving()) ==>
                && board.cpld.mem == old(board.cpld.mem)[Wired(addr) := data]
                && board.cpld.commits == old(board.cpld.commits) + FourCommits(addr, data)
                && Bystanders() == old(Bystanders())
    {
      hide StrikesLeft, Driving, Bystanders, Lines, Repaired, Wired, Reg, TransmitByte, FourCommits, EndsWith,
        Logged, Tame, PinView.Valid, Follows, ViewOf, Traced, Motions, Times, Sending;
      ghost var attempts: nat := 0;
      TimesGrows(Motions(old(trace)), Sending(addr, data), 0);
      while true
        invariant Valid() && !locked
        invariant StrikesLeft() <= old(StrikesLeft()) && old(trace) <= trace && exposed == old(exposed)
        invariant Motions(trace) == Motions(old(trace)) + Times(Sending(addr, data), attempts)
        invariant old(board.cpld.commits) <= board.cpld.commits && Unmisled() && misleads >= old(misleads)
        invariant Tame(kind, old(onWrite)) ==> Tame(kind, onWrite)
        invariant StrikesLeft() == old(StrikesLeft()) ==> misleads == old(misleads)
        invariant StrikesLeft() == old(StrikesLeft()) && old(Driving()) ==> board == old(board)
        decreases StrikesLeft(), if Driving() then 0 else 1
      {
        ghost var c := board.cpld;
        CpldLock();
        SendByte(addr, data);
        TransmitByteStores(c, addr, data);
        StoredByte(c.mem, Wired(addr), data);
        AppendedTail(c.commits, FourCommits(addr, data));
        FourLong(addr, data);
        sent, left := board.cpld, StrikesLeft();
        var rv := RepairDirections();
        TimesGrows(Motions(old(trace)), Sending(addr, data), attempts);
        attempts := attempts + 1;
        if rv == 0 {
          LoggedFollows(origin, since, old(board.cpld), sent);
          LoggedFollows(origin, since, sent, board.cpld);
          break;
        }
        CpldUnlock();
      }
      CpldUnlock();
      status := 0;
    }

    /** cpld_sdp_read. Whatever strikes come, the call ends and, unless one was insidious, returns what the
        addressed register held when the transfers of its last attempt were over (sent). */
    method Read(addr: bv8) returns (value: bv8, ghost sent: Cpld, ghost left: nat)
      requires Valid() && !locked
      modifies this`board, this`onRead, this`onWrite, this`trace, this`exposed, this`misleads, this`locked
      ensures Valid() && !locked
      ensures StrikesLeft() <= left <= old(StrikesLeft()) && old(trace) <= trace && exposed == old(exposed)
      ensures RunsAgain(Receiving(addr))
      ensures Follows(old(board.cpld), sent) && Follows(sent, board.cpld)
      ensures Unmisled() && (StrikesLeft() == old(StrikesLeft()) ==> misleads == old(misleads))
      ensures misleads == old(misleads) ==> value == Reg(sent.mem, Wired(addr))
      ensures |board.cpld.commits| <= |sent.commits| + (left - StrikesLeft())
      ensures StrikesLeft() == left ==> board.cpld == sent && Driving()
      ensures StrikesLeft() == old(StrikesLeft()) && old(Driving()) ==>
                && board.cpld.mem == old(board.cpld.mem)
                && board.cpld.commits == old(board.cpld.commits)
                && Bystanders() == old(Bystanders())
    {
      hide StrikesLeft, Driving, Bystanders, Lines, Repaired, Wired, Reg, Logged, Tame, PinView.Valid, Follows,
        ViewOf, Traced, Motions, Times, Receiving;
      ghost var attempts: nat := 0;
      TimesGrows(Motions(old(trace)), Receiving(addr), 0);
      while true
        invariant Valid() && !locked
        invariant StrikesLeft() <= old(StrikesLeft()) && old(trace) <= trace && exposed == old(exposed)
        invariant Motions(trace) == Motions(old(trace)) + Times(Receiving(addr), attempts)
        invariant old(board.cpld.commits) <= board.cpld.commits && Unmisled() && misleads >= old(misleads)
        invariant Tame(kind, old(onWrite)) ==> Tame(kind, onWrite)
        invariant StrikesLeft() == old(StrikesLeft()) ==> misleads == old(misleads)
        invariant StrikesLeft() == old(StrikesLeft()) && old(Driving()) ==> board == old(board)
        decreases StrikesLeft(), if Driving() then 0 else 1
      {
        CpldLock();
        value := ReceiveByte(addr);
        sent, left := board.cpld, StrikesLeft();
        var rv := RepairDirections();
        TimesGrows(Motions(old(trace)), Receiving(addr), attempts);
        attempts := attempts + 1;
        if rv == 0 {
          LoggedFollows(origin, since, old(board.cpld), sent);
          LoggedFollows(origin, since, sent, board.cpld);
          break;
        }
        CpldUnlock();
      }
      CpldUnlock();
    }

    /** The switch of cpld_sdp_kick. */
    method SendKick(segment: int)
      requires Valid() && locked
      modifies this`board, this`onRead, this`onWrite, this`trace, this`exposed, this`misleads
      ensures Keeps() && Runs(Kicking(segment))
      ensures Unmisled()
      ensures Clean() ==>
                && board.cpld.commits == old(board.cpld.commits) + KickCommits(segment)
                && board.cpld.mem == KickMemory(old(board.cpld.mem), segment)
    {
      hide Motions, Transmission, Effect, Spoilt, Now, Strikes, Tame, GlitchSafe, Driving, Bystanders, StrikesLeft,
        Valid, Transmit, Store;
      ghost var c := board.cpld;
      if 0 <= segment < 4 {
        KickTransmits(c, segment);
      } else {
        assert c.commits + KickCommits(segment) == c.commits;
      }
      match segment {
        case 0 => TxTwo(CSR, 2, 1);
        case 1 => TxTwo(CSR, 2, 2);
        case 2 => TxTwo(CSR, 3, 1);
        case 3 => TxTwo(CSR, 3, 2);
        case _ =>
      }
    }

    /** cpld_sdp_kick of both files. A busy lock is left alone and nothing is done. Otherwise the
        lock is free again on return, and 0 means, unless a strike was insidious, that when the transfer was
        over (sent) the CPLD had, in this call and as the last thing, stored the slice of the segment's kick
        bit. */
    method Kick(segment: int) returns (rv: int, ghost sent: Cpld)
      requires Valid()
      modifies this`board, this`onRead, this`onWrite, this`trace, this`exposed, this`misleads, this`locked
      ensures Valid() && (rv == 0 || rv == -1) && StrikesLeft() <= old(StrikesLeft())
      ensures locked == old(locked)
      ensures Follows(old(board.cpld), sent) && Follows(sent, board.cpld)
      ensures old(locked) ==>
                && rv == -1 && board == old(board) && trace == old(trace)
                && onRead == old(onRead) && onWrite == old(onWrite)
      ensures Unmisled() && old(trace) <= trace && (!old(locked) ==> Runs(Kicking(segment)))
      ensures rv == 0 && misleads == old(misleads) ==>
                && |sent.commits| >= |old(board.cpld.commits)| + |KickCommits(segment)|
                && EndsWith(sent.commits, KickCommits(segment))
      ensures rv == 0 ==>
                && |board.cpld.commits| <= |sent.commits| + (old(StrikesLeft()) - StrikesLeft())
      ensures if old(locked) then exposed == old(exposed) else exposed > old(exposed)
      ensures !old(locked) && StrikesLeft() == old(StrikesLeft()) ==>
                && Driving()
                && (rv == 0 <==> kind.Esdp? || old(Driving()))
                && (rv == 0 && misleads == old(misleads) ==> EndsWith(sent.commits, KickCommits(segment)))
      ensures !old(locked) && StrikesLeft() == old(StrikesLeft()) && old(Driving()) ==>
                && rv == 0 && board.cpld == sent && Driving() && Bystanders() == old(Bystanders())
                && sent.commits == old(board.cpld.commits) + KickCommits(segment)
                && sent.mem == KickMemory(old(board.cpld.mem), segment)
    {
      hide StrikesLeft, Driving, Bystanders, Lines, Repaired, KickCommits, KickMemory, EndsWith, Logged, Tame,
        PinView.Valid, Follows, ViewOf, Traced, Motions, Kicking;
      var busy := CpldTrylock();
      if busy {
        sent := board.cpld;
        LoggedFollows(origin, since, sent, sent);
        return -1, sent;
      }
      if kind.Esdp? {
        var _ := InitIoDirection();
      }
      ghost var c := board.cpld;
      AppendedTail(c.commits, KickCommits(segment));
      SendKick(segment);
      CpldUnlock();
      sent := board.cpld;
      LoggedFollows(origin, since, old(board.cpld), sent);
      rv := RepairDirections();
      LoggedFollows(origin, since, sent, board.cpld);
    }

    /** Not the driver: something behind the CPLD changes one of its registers. The log counts from there. */
    method Outside(addr: int, value: bv8)
      requires Valid()
      modifies this`board, this`origin, this`since, this`trace
      ensures Valid() && Driving() == old(Driving())
      ensures board == old(board).(cpld := old(board.cpld).(mem := old(board.cpld.mem)[addr := value]))
    {
      hide Replay, After, Spoils;
      trace := trace + [Change(addr, value)];
      TraceGrows(kind, start, old(trace), Change(addr, value));
      board := board.(cpld := board.cpld.(mem := board.cpld.mem[addr := value]));
      origin, since := board.cpld.mem, |board.cpld.commits|;
      NothingLogged(board.cpld);
    }

    /** cpld_init of both files; i350 stands for a card name containing N522. ready is the device when the directions
        had been found or made right. */
    method Init(i350: bool) returns (ghost ready: Cpld)
      requires Valid() && !locked
      modifies this`board, this`onRead, this`onWrite, this`trace, this`exposed, this`misleads, this`locked
      ensures Valid() && !locked && StrikesLeft() <= old(StrikesLeft()) && old(trace) <= trace
      ensures StrikesLeft() == old(StrikesLeft()) ==>
                && Driving() && (old(Driving()) ==> ready == old(board.cpld))
                && board.cpld.mem == if kind.Sdp? && i350 then PowerOffFix(ready.mem) else ready.mem
    {
      hide StrikesLeft, Driving, Bystanders, Lines, Valid, Repaired, EndsWith, FourCommits, Follows, Motions, Times,
        PowerOffFix;
      if kind.Esdp? {
        var _ := InitIoDirection();
        ready := board.cpld;
        return;
      }
      while true
        invariant Valid() && !locked
        invariant StrikesLeft() <= old(StrikesLeft()) && old(trace) <= trace
        invariant StrikesLeft() == old(StrikesLeft()) && old(Driving()) ==> board == old(board)
        decreases StrikesLeft(), if Driving() then 0 else 1
      {
        var rv := SetPinDirection();
        if rv == 0 {
          break;
        }
      }
      ready := board.cpld;
      if i350 {
        FixIs(ready.mem);
        var _, _, _ := Write(0x01, 0x55);
        var value, _, _ := Read(0x08);
        var _, _, _ := Write(0x08, value | 0x02);
      }
    }
  }

  lemma FixIs(m: Memory)
    ensures Wired(0x01) == 1 && Wired(0x08) == 8
    ensures PowerOffFix(m) == m[1 := 0x55][8 := Reg(m[1 := 0x55], 8) | 0x02]
  {
  }
}
