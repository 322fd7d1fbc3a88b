/** Link fault detection, module/lfd.c: a five-state machine per segment, run once per period, and the
    bookkeeping of which segments it runs for. */
module Lfd {
  const MAX_CARD := 4
  const MAX_SEGMENT := 4
  const LFD_MAX_CHECK_COUNT := 5
  const EINTR := 4

  /** lfd_state, lfd_count and the last commands port_set gave the segment's ports (true is up). */
  datatype Segment = Segment(state: int, count: int, cmd0: bool, cmd1: bool)

  /** What port_get says of the two ports of a segment. */
  datatype Links = Links(port0: bool, port1: bool)

  /** card, segment */
  type Key = (int, int)

  predicate InRange(k: Key) {
    0 <= k.0 < MAX_CARD && 0 <= k.1 < MAX_SEGMENT
  }

  // One period of one segment, as the state machine it is meant to be.

  function Isolate(s: Segment, l: Links): Segment {
    if !l.port0 && l.port1 then s.(state := 2, cmd0 := true, cmd1 := false)
    else if l.port0 && !l.port1 then s.(state := 3, cmd0 := false, cmd1 := true)
    else s
  }

  function Tick(s: Segment, l: Links): Segment {
    if s.state == 0 then if l.port0 && l.port1 then s.(state := 1) else Isolate(s, l)
    else if s.state == 1 then Isolate(s, l)
    else if s.state == 2 then if l.port0 then s.(state := 4, cmd0 := true, cmd1 := true) else s
    else if s.state == 3 then if l.port1 then s.(state := 4, cmd0 := true, cmd1 := true) else s
    else if s.state == 4 then
      if l.port0 && l.port1 then s.(state := 1, count := LFD_MAX_CHECK_COUNT)
      else if s.count != 0 then s.(count := s.count - 1)
      else s.(state := 0, count := LFD_MAX_CHECK_COUNT)
    else s.(state := 0)
  }

  /** The error branch is unreachable, the counter runs only while both ports are being probed, and a
      port is held down only in the two isolating states, one port in each. */
  predicate Sane(s: Segment) {
    && 0 <= s.state <= 4
    && 0 <= s.count <= LFD_MAX_CHECK_COUNT
    && (s.state != 4 ==> s.count == LFD_MAX_CHECK_COUNT)
    && s.cmd0 == (s.state != 3)
    && s.cmd1 == (s.state != 2)
  }

  lemma TickKeepsSane(s: Segment, l: Links)
    requires Sane(s)
    ensures Sane(Tick(s, l))
  {
  }

  /** What one period does for any links the ports may show, whoever has commanded them before. While looking for a
      fault: if just one port shows link, each port is commanded as its companion is linked; else nothing is.
      While isolating: only the faulty port's link counts, and then both ports are commanded up. While
      probing: nothing is commanded until both ports show link or five periods are over. */
  lemma TickExactly(s: Segment, l: Links)
    requires 0 <= s.state <= 4
    ensures var r := Tick(s, l);
      && (s.state <= 1 && l.port0 != l.port1 ==>
            r.cmd0 == l.port1 && r.cmd1 == l.port0 && r.state == if l.port1 then 2 else 3)
      && (s.state <= 1 && l.port0 == l.port1 ==>
            r == s.(state := if l.port0 then 1 else s.state))
      && (s.state == 2 || s.state == 3 ==>
            var back := if s.state == 2 then l.port0 else l.port1;
            r == if back then Segment(4, s.count, true, true) else s)
      && (s.state == 4 ==>
            && r.cmd0 == s.cmd0 && r.cmd1 == s.cmd1
            && (r.state == 1 <==> l.port0 && l.port1)
            && (r.state == 0 <==> !(l.port0 && l.port1) && s.count == 0)
            && (r.state == 4 <==> !(l.port0 && l.port1) && s.count != 0)
            && r.count == if r.state == 4 then s.count - 1 else 5)
  {
  }

  /** So a port that was up is taken down only if it shows link and its companion does not, and a port that was
      down is let up again only if it is the companion of a port whose link is back, or the faulty one. */
  lemma TickIsCautious(s: Segment, l: Links)
    requires Sane(s)
    ensures var r := Tick(s, l);
      && (s.cmd0 && !r.cmd0 ==> l.port0 && !l.port1 && s.state <= 1)
      && (s.cmd1 && !r.cmd1 ==> l.port1 && !l.port0 && s.state <= 1)
      && (!s.cmd0 && r.cmd0 <==> s.state == 3 && l.port1)
      && (!s.cmd1 && r.cmd1 <==> s.state == 2 && l.port0)
  {
  }

  /** A port LFD holds down shows no link, whatever is plugged into it. */
  function Observed(s: Segment, cable: Links): Links {
    Links(cable.port0 && s.cmd0, cable.port1 && s.cmd1)
  }

  /** n periods with the cables as they are. */
  function Ticks(s: Segment, cable: Links, n: nat): Segment {
    if n == 0 then s else var before := Ticks(s, cable, n - 1); Tick(before, Observed(before, cable))
  }

  /** The state a segment belongs in for its cables, when not both are down. */
  function Goal(cable: Links): int
    requires cable.port0 || cable.port1
  {
    if cable.port0 && cable.port1 then 1 else if cable.port1 then 2 else 3
  }

  /** How many periods a segment is away from its goal. */
  function Distance(s: Segment, cable: Links): int
    requires cable.port0 || cable.port1
  {
    if s.state == Goal(cable) then 0
    else if cable.port0 && cable.port1 then if s.state == 2 || s.state == 3 then 2 else 1
    else if s.state == 4 then s.count + 2
    else if s.state == 2 || s.state == 3 then LFD_MAX_CHECK_COUNT + 3
    else 1
  }

  /** With fixed cables, not both down, a segment is in its goal state after n periods exactly if n is
      at least its distance: it gets there on the very period predicted and never leaves. */
  lemma {:induction false} Converges(s: Segment, cable: Links, n: nat)
    requires Sane(s) && (cable.port0 || cable.port1)
    ensures Sane(Ticks(s, cable, n))
    ensures Ticks(s, cable, n).state == Goal(cable) <==> n >= Distance(s, cable)
    ensures Distance(Ticks(s, cable, n), cable) == if n >= Distance(s, cable) then 0 else Distance(s, cable) - n
  {
    if n > 0 {
      Converges(s, cable, n - 1);
      var before := Ticks(s, cable, n - 1);
      TickKeepsSane(before, Observed(before, cable));
      assert Distance(Ticks(s, cable, n), cable)
          == if Distance(before, cable) == 0 then 0 else Distance(before, cable) - 1;
    }
  }

  /** So the fault of one cable is answered within eight periods, the companion port
      and only it being held down from then on, and both cables up release both ports within 2. */
  lemma FaultIsPropagated(s: Segment, cable: Links, n: nat)
    requires Sane(s) && (cable.port0 || cable.port1)
    requires n >= if cable.port0 && cable.port1 then 2 else 8
    ensures var r := Ticks(s, cable, n);
      && r.state == Goal(cable)
      && r.cmd0 == cable.port1 && r.cmd1 == cable.port0
  {
    Converges(s, cable, n);
  }

  /** With both cables down nothing new is isolated: a port held down stays so, and no other is added. */
  lemma {:induction false} DarkSegmentWaits(s: Segment, cable: Links, n: nat)
    requires Sane(s) && !cable.port0 && !cable.port1
    ensures var r := Ticks(s, cable, n);
      && Sane(r) && r.cmd0 == s.cmd0 && r.cmd1 == s.cmd1
      && r.state == (if s.state == 4 && n > s.count then 0 else s.state)
      && r.count == (if s.state == 4 && n <= s.count then s.count - n else LFD_MAX_CHECK_COUNT)
  {
    if n > 0 {
      DarkSegmentWaits(s, cable, n - 1);
    }
  }

  // The driver.

  class Driver {
    var bmp: seq<set<int>>
    var cells: map<Key, Segment>
    var active: bool

    ghost predicate Shaped()
      reads this
    {
      |bmp| == MAX_CARD && (forall k :: InRange(k) ==> k in cells)
    }

    predicate On(k: Key)
      requires |bmp| == MAX_CARD && InRange(k)
      reads this
    {
      k.1 in bmp[k.0]
    }

    /** The global flag holds exactly when some segment's bit is set. */
    ghost predicate Consistent()
      requires |bmp| == MAX_CARD
      reads this
    {
      active <==> exists i :: 0 <= i < MAX_CARD && bmp[i] != {}
    }

    /** Active segments are sane, inactive ones have both ports commanded up. */
    ghost predicate Valid()
      reads this
    {
      && Shaped()
      && Consistent()
      && forall k :: InRange(k) ==> if On(k) then Sane(cells[k]) else cells[k].cmd0 && cells[k].cmd1
    }

    constructor ()
      ensures Valid() && bmp == [{}, {}, {}, {}] && !active
      ensures forall k :: InRange(k) ==> cells[k] == Segment(0, 0, true, true)
    {
      bmp := [{}, {}, {}, {}];
      active := false;
      cells := map i, j | 0 <= i < MAX_CARD && 0 <= j < MAX_SEGMENT :: (i, j) := Segment(0, 0, true, true);
    }

    method PortSet(card: int, segment: int, port: int, up: bool)
      requires Shaped() && InRange((card, segment)) && (port == 0 || port == 1)
      modifies this`cells
      ensures cells == old(cells)[(card, segment) :=
                if port == 0 then old(cells)[(card, segment)].(cmd0 := up)
                else old(cells)[(card, segment)].(cmd1 := up)]
    {
      var k := (card, segment);
      cells := cells[k := if port == 0 then cells[k].(cmd0 := up) else cells[k].(cmd1 := up)];
    }

    method SetState(card: int, segment: int, state: int)
      requires Shaped() && InRange((card, segment))
      modifies this`cells
      ensures cells == old(cells)[(card, segment) := old(cells)[(card, segment)].(state := state)]
    {
      cells := cells[(card, segment) := cells[(card, segment)].(state := state)];
    }

    method SetCount(card: int, segment: int, count: int)
      requires Shaped() && InRange((card, segment))
      modifies this`cells
      ensures cells == old(cells)[(card, segment) := old(cells)[(card, segment)].(count := count)]
    {
      cells := cells[(card, segment) := cells[(card, segment)].(count := count)];
    }

    /** lfd_update_segment; port0 and port1 are the two port_get results. */
    method UpdateSegment(card: int, segment: int, port0: bool, port1: bool)
      requires Shaped() && InRange((card, segment))
      modifies this`cells
      ensures Shaped()
      ensures cells == old(cells)[(card, segment) := Tick(old(cells)[(card, segment)], Links(port0, port1))]
    {
      var k := (card, segment);
      var state := cells[k].state;
      if state == 0 && port0 && port1 {
        SetState(card, segment, 1);
      } else if state == 0 || state == 1 {
        if !port0 && port1 {
          SetState(card, segment, 2);
          PortSet(card, segment, 0, true);
          PortSet(card, segment, 1, false);
        } else if port0 && !port1 {
          SetState(card, segment, 3);
          PortSet(card, segment, 0, false);
          PortSet(card, segment, 1, true);
        }
      } else if state == 2 {
        if port0 {
          SetState(card, segment, 4);
          PortSet(card, segment, 0, true);
          PortSet(card, segment, 1, true);
        }
      } else if state == 3 {
        if port1 {
          SetState(card, segment, 4);
          PortSet(card, segment, 0, true);
          PortSet(card, segment, 1, true);
        }
      } else if state == 4 {
        if port0 && port1 {
          SetState(card, segment, 1);
          SetCount(card, segment, LFD_MAX_CHECK_COUNT);
        } else if cells[k].count != 0 {
          SetState(card, segment, 4);
          SetCount(card, segment, cells[k].count - 1);
        } else {
          SetState(card, segment, 0);
          SetCount(card, segment, LFD_MAX_CHECK_COUNT);
        }
      } else {
        SetState(card, segment, 0);
      }
    }

    /** lfd_update_active: one period is one step of every active segment, each on its own. */
    method UpdateActive(seen: map<Key, Links>)
      requires Valid() && (forall k :: InRange(k) ==> k in seen)
      modifies this`cells
      ensures Valid()
      ensures forall k :: InRange(k) ==> cells[k] == if On(k) then Tick(old(cells)[k], seen[k]) else old(cells)[k]
    {
      for i := 0 to MAX_CARD
        invariant Shaped()
        invariant forall k :: InRange(k) ==>
          cells[k] == if On(k) && k.0 < i then Tick(old(cells)[k], seen[k]) else old(cells)[k]
      {
        for j := 0 to MAX_SEGMENT
          invariant Shaped()
          invariant forall k :: InRange(k) ==>
                      (cells[k] == if On(k) && (k.0 < i || (k.0 == i && k.1 < j))
                                   then Tick(old(cells)[k], seen[k]) else old(cells)[k])
        {
          if j in bmp[i] {
            UpdateSegment(i, j, seen[(i, j)].port0, seen[(i, j)].port1);
          }
        }
      }
      forall k | InRange(k) && On(k) ensures Sane(cells[k]) {
        TickKeepsSane(old(cells)[k], seen[k]);
      }
    }

    /** lfd_start. interrupted stands for down_interruptible being broken off by a signal: the bit is
        then already set but nothing else happens, and the flag is wrong exactly if LFD was idle. */
    method Start(card: int, segment: int, interrupted: bool) returns (rc: int)
      requires Valid() && InRange((card, segment))
      modifies this
      ensures Shaped() && rc == (if interrupted && !old(On((card, segment))) then -4 else 0)
      ensures bmp == old(bmp)[card := old(bmp)[card] + {segment}]
      ensures Consistent() <==> !interrupted || old(On((card, segment))) || old(active)
      ensures !interrupted || old(On((card, segment))) ==> Valid() && active
      ensures cells == if interrupted || old(On((card, segment))) then old(cells)
                       else old(cells)[(card, segment) :=
                         old(cells)[(card, segment)].(state := 0, count := LFD_MAX_CHECK_COUNT)]
    {
      var was := segment in bmp[card];
      bmp := bmp[card := bmp[card] + {segment}];
      assert bmp[card] != {};
      if was {
        return 0;
      }
      if interrupted {
        return -EINTR;
      }
      if !active {
        active := true;
      }
      SetState(card, segment, 0);
      SetCount(card, segment, LFD_MAX_CHECK_COUNT);
      return 0;
    }

    /** lfd_stop. Uninterrupted, it leaves both ports of the segment commanded up and the flag right. */
    method Stop(card: int, segment: int, interrupted: bool) returns (rc: int)
      requires Valid() && InRange((card, segment))
      modifies this
      ensures Shaped() && rc == (if interrupted && old(On((card, segment))) then -4 else 0)
      ensures bmp == old(bmp)[card := old(bmp)[card] - {segment}]
      ensures Consistent() <==>
        !interrupted || !old(On((card, segment))) || exists i :: 0 <= i < MAX_CARD && bmp[i] != {}
      ensures !interrupted || !old(On((card, segment))) ==> Valid()
      ensures cells == if interrupted || !old(On((card, segment))) then old(cells)
                       else old(cells)[(card, segment) := old(cells)[(card, segment)].(cmd0 := true, cmd1 := true)]
      ensures !interrupted ==> cells[(card, segment)].cmd0 && cells[(card, segment)].cmd1
    {
      var was := segment in bmp[card];
      bmp := bmp[card := bmp[card] - {segment}];
      if !was {
        assert bmp[card] == old(bmp)[card];
        assert bmp == old(bmp);
        return 0;
      }
      assert old(bmp)[card] != {};
      if interrupted {
        return -EINTR;
      }
      if active {
        var available := {};
        for i := 0 to MAX_CARD
          invariant |bmp| == MAX_CARD
          invariant available != {} <==> exists j :: 0 <= j < i && bmp[j] != {}
        {
          available := available + bmp[i];
        }
        if available == {} {
          active := false;
        }
      }
      PortSet(card, segment, 0, true);
      PortSet(card, segment, 1, true);
      return 0;
    }
  }
}
