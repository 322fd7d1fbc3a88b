/** Finding the cards, module/main.c:29-109, and their control ports, module/cpld_validate.c:20-87. */
module Discovery {
  datatype Option<T> = None | Some(value: T)

  const MAX_CARD := 4
  const MAX_PORT_PER_CARD := 8
  const E2BIG := 7
  const ENXIO := 6

  // The search for the control ports.

  datatype Side = Flash | Sdp | Esdp | Mdio | Unknown

  /** What an entry of hw_ctrl can be: a window of a PCI device, or an MDIO address. */
  datatype Control = Window(device: int, bar: int) | Address(number: int)

  datatype Pair = Pair(first: Control, second: Control)

  /** The pairs cpld_validate tries at port i of a card with these devices, in its order. */
  function TriedAt(side: Side, devices: seq<int>, i: nat): seq<Pair>
    requires i < |devices|
  {
    match side
    case Flash => [Pair(Window(devices[i], 0), Window(devices[i], 2))]
    case Mdio => [Pair(Window(devices[i], 0), Address(0x01)), Pair(Window(devices[i], 0), Address(0x1E))]
    case Unknown => []
    case _ =>
      if i % 2 == 0 then []
      else [Pair(Window(devices[i - 1], 0), Window(devices[i], 0)),
            Pair(Window(devices[i], 0), Window(devices[i - 1], 0))]
  }

  /** All pairs tried at the first ports. */
  function Tried(side: Side, devices: seq<int>, ports: nat): seq<Pair>
    requires ports <= |devices|
  {
    if ports == 0 then [] else Tried(side, devices, ports - 1) + TriedAt(side, devices, ports - 1)
  }

  /** A pair the documentation of cpld_validate asks for: any port for FLASH, the ports of a segment straight
      or reversed for SDP, any port with each address for MDIO. */
  predicate Wanted(side: Side, devices: seq<int>, ports: nat, pair: Pair)
    requires ports <= |devices|
  {
    match side
    case Flash => exists i | 0 <= i < ports :: pair == Pair(Window(devices[i], 0), Window(devices[i], 2))
    case Mdio =>
      exists i | 0 <= i < ports ::
        pair.first == Window(devices[i], 0) && (pair.second == Address(0x01) || pair.second == Address(0x1E))
    case Unknown => false
    case _ =>
      exists i, j | 0 <= i < ports && 0 <= j < ports ::
        i != j && i / 2 == j / 2 && pair == Pair(Window(devices[i], 0), Window(devices[j], 0))
  }

  /** Two ports below this number form a segment exactly if they already did or the upper one is new. */
  lemma SegmentGrows(ports: nat, i: int, j: int)
    requires ports > 0
    ensures 0 <= i < ports && 0 <= j < ports && i != j && i / 2 == j / 2 <==>
      || (0 <= i < ports - 1 && 0 <= j < ports - 1 && i != j && i / 2 == j / 2)
      || ((ports - 1) % 2 == 1 && ((i == ports - 2 && j == ports - 1) || (i == ports - 1 && j == ports - 2)))
  {
  }

  lemma WantedGrows(side: Side, devices: seq<int>, ports: nat, pair: Pair)
    requires 0 < ports <= |devices|
    ensures Wanted(side, devices, ports, pair) <==>
      Wanted(side, devices, ports - 1, pair) || pair in TriedAt(side, devices, ports - 1)
  {
    if side.Sdp? || side.Esdp? {
      forall i, j {
        SegmentGrows(ports, i, j);
      }
    }
  }

  /** The search tries all combinations there are, and nothing else. */
  lemma {:induction false} TriedIsWanted(side: Side, devices: seq<int>, ports: nat, pair: Pair)
    requires ports <= |devices|
    ensures pair in Tried(side, devices, ports) <==> Wanted(side, devices, ports, pair)
  {
    if ports > 0 {
      hide Wanted, TriedAt;
      TriedIsWanted(side, devices, ports - 1, pair);
      WantedGrows(side, devices, ports, pair);
    }
  }

  /** The k-th pair of the search: port by port, each MDIO port with address 0x01 before 0x1E, each segment straight
      before reversed. */
  function Candidate(side: Side, devices: seq<int>, k: nat): Pair
    requires !side.Unknown? && (if side.Flash? then k < |devices| else k / 2 < |devices|)
    requires side.Sdp? || side.Esdp? ==> k / 2 * 2 + 1 < |devices|
  {
    match side
    case Flash => Pair(Window(devices[k], 0), Window(devices[k], 2))
    case Mdio => Pair(Window(devices[k / 2], 0), Address(if k % 2 == 0 then 0x01 else 0x1E))
    case _ =>
      if k % 2 == 0 then Pair(Window(devices[k], 0), Window(devices[k + 1], 0))
      else Pair(Window(devices[k], 0), Window(devices[k - 1], 0))
  }

  /** How many pairs there are. */
  function Candidates(side: Side, ports: nat): nat {
    match side
    case Flash => ports
    case Mdio => 2 * ports
    case Unknown => 0
    case _ => ports / 2 * 2
  }

  lemma {:induction false} TriedInOrder(side: Side, devices: seq<int>, ports: nat, k: nat)
    requires ports <= |devices| && !side.Unknown?
    ensures |Tried(side, devices, ports)| == Candidates(side, ports)
    ensures k < Candidates(side, ports) ==> Tried(side, devices, ports)[k] == Candidate(side, devices, k)
  {
    if ports > 0 {
      TriedInOrder(side, devices, ports - 1, k);
      assert ports % 2 == 0 ==> ports / 2 * 2 == ports && (ports - 1) / 2 * 2 == ports - 2;
      assert ports % 2 == 1 ==> ports / 2 * 2 == ports - 1 == (ports - 1) / 2 * 2;
    }
  }

  /** hw_ctrl after the search: the first pair that answers, else the last one tried. */
  function Chosen(tried: seq<Pair>, answers: Pair -> bool, before: Pair): Pair
  {
    if tried == [] then before
    else if answers(tried[0]) then tried[0]
    else Chosen(tried[1..], answers, tried[0])
  }

  predicate Responds(tried: seq<Pair>, answers: Pair -> bool) {
    exists p | p in tried :: answers(p)
  }

  lemma {:induction false} ChosenAnswersFirst(tried: seq<Pair>, answers: Pair -> bool, before: Pair)
    ensures Responds(tried, answers) ==>
      exists k | 0 <= k < |tried| ::
        Chosen(tried, answers, before) == tried[k] && answers(tried[k]) && forall j | 0 <= j < k :: !answers(tried[j])
  {
    if Responds(tried, answers) && !answers(tried[0]) {
      var p :| p in tried && answers(p);
      assert p in tried[1..];
      ChosenAnswersFirst(tried[1..], answers, tried[0]);
      var k :| 0 <= k < |tried[1..]| && Chosen(tried[1..], answers, tried[0]) == tried[1..][k] && answers(tried[1..][k])
        && forall j | 0 <= j < k :: !answers(tried[1..][j]);
      assert Chosen(tried, answers, before) == tried[k + 1];
      forall j | 0 <= j < k + 1
        ensures !answers(tried[j])
      {
        if j > 0 {
          assert tried[j] == tried[1..][j - 1];
        }
      }
    }
  }

  // Grouping devices into cards.

  /** A PCI function as enumerated, with the network device found for it, if any. */
  datatype Device = Device(pci: int, net: Option<int>)

  /** An entry of pci_cards: swapped stands for a name with N32264 or N42264 in it. */
  datatype Entry = Entry(ports: int, side: Side, swapped: bool)

  type Model = e: Entry | 1 <= e.ports <= MAX_PORT_PER_CARD witness Entry(2, Sdp, false)

  const NO_MODEL: Model := Entry(1, Unknown, false)

  /** A card_t: its devices and network devices, port by port, and what it takes from pci_cards. */
  datatype Columns = Columns(pci: seq<int>, net: seq<Option<int>>, model: Model)

  type Slot = c: Columns | |c.pci| == MAX_PORT_PER_CARD && |c.net| == MAX_PORT_PER_CARD
    witness Columns([0, 0, 0, 0, 0, 0, 0, 0], [None, None, None, None, None, None, None, None],
                    Entry(1, Unknown, false))

  const BLANK: Slot := Columns([0, 0, 0, 0, 0, 0, 0, 0], [None, None, None, None, None, None, None, None], NO_MODEL)

  /** The port whose place a port takes on a card with swapped segments: itself if that is off the card. */
  function Twin(ports: int, p: nat): (q: nat)
    ensures p < ports ==> q < ports
  {
    if p / 2 % 2 == 1 then p - 2 else if p + 2 < ports then p + 2 else p
  }

  lemma TwinInvolutes(ports: int, p: nat)
    requires p < ports
    ensures Twin(ports, Twin(ports, p)) == p
    ensures Twin(ports, p) == p <==> p / 2 % 2 == 0 && ports <= p + 2
    ensures Twin(ports, p) == p || Twin(ports, p) == p + 2 || Twin(ports, p) == p - 2
  {
  }

  /** Where among the devices of a card, in the order of enumeration, the one of port p is. */
  function Seat(model: Model, p: nat): (r: nat)
    ensures p < model.ports ==> r < model.ports
  {
    if model.swapped then Twin(model.ports, p) else p
  }

  function Arranged(model: Model, slot: Slot): Slot {
    Columns(
      seq(MAX_PORT_PER_CARD, p requires 0 <= p < MAX_PORT_PER_CARD =>
        if p < model.ports then slot.pci[Seat(model, p)] else slot.pci[p]),
      seq(MAX_PORT_PER_CARD, p requires 0 <= p < MAX_PORT_PER_CARD =>
        if p < model.ports then slot.net[Seat(model, p)] else slot.net[p]),
      model)
  }

  /** A device takes its port of the slot. Without a network device the port keeps what it held. */
  function Placed(slot: Slot, port: nat, d: Device): Slot
    requires port < MAX_PORT_PER_CARD
  {
    Columns(slot.pci[port := d.pci], if d.net.Some? then slot.net[port := d.net] else slot.net, slot.model)
  }

  /** The scan after some devices: port is the next one of the unfinished card. */
  datatype Scan = Scan(slots: seq<Slot>, maxcard: nat, port: nat, model: Model, rc: int) {
    predicate Sound() {
      |slots| == MAX_CARD && maxcard <= MAX_CARD && port < model.ports && (port > 0 ==> maxcard < MAX_CARD)
    }
  }

  predicate CardResponds(model: Model, pci: seq<int>, answers: Pair -> bool)
    requires |pci| == model.ports
  {
    Responds(Tried(model.side, pci, model.ports), answers)
  }

  /** One round of the scan, in order: too many cards, no network device, card not finished, card
      finished and rejected or accepted. */
  function Step(st: Scan, d: Device, answers: Pair -> bool): (r: Scan)
    requires st.Sound()
    ensures r.Sound() && r.model == st.model
  {
    if st.rc != 0 then st
    else if st.port == 0 && st.maxcard >= MAX_CARD then st.(rc := -E2BIG)
    else
      var slot := Placed(st.slots[st.maxcard], st.port, d);
      if slot.net[st.port] == None then st.(slots := st.slots[st.maxcard := slot], rc := -ENXIO)
      else if st.port + 1 < st.model.ports then st.(slots := st.slots[st.maxcard := slot], port := st.port + 1)
      else
        var card := Arranged(st.model, slot);
        st.(slots := st.slots[st.maxcard := card], port := 0,
            maxcard :=
              if CardResponds(st.model, card.pci[..st.model.ports], answers) then st.maxcard + 1 else st.maxcard)
  }

  /** Several rounds. */
  function Series(st: Scan, devices: seq<Device>, answers: Pair -> bool): (r: Scan)
    requires st.Sound()
    ensures r.Sound() && r.model == st.model
    decreases |devices|
  {
    if devices == [] then st
    else Step(Series(st, devices[..|devices| - 1], answers), devices[|devices| - 1], answers)
  }

  /** Devices taken for a new card, from a place in the enumeration of one table entry on: as many as the card
      has ports, or fewer if the enumeration ends. */
  datatype Attempt = Attempt(model: Model, devices: seq<Device>, bus: nat, start: nat)

  type Try = t: Attempt | 1 <= |t.devices| <= t.model.ports witness Attempt(NO_MODEL, [Device(0, None)], 0, 0)

  predicate Full(t: Try) {
    |t.devices| == t.model.ports
  }

  /** Before the scan: cards is zeroed and the model is that of no card. */
  const START := Scan([BLANK, BLANK, BLANK, BLANK], 0, 0, NO_MODEL, 0)

  function Tackle(st: Scan, t: Try, answers: Pair -> bool): (r: Scan)
    requires st.Sound()
    ensures r.Sound()
  {
    if st.rc != 0 then st else Series(st.(model := t.model, port := 0), t.devices, answers)
  }

  function Run(tries: seq<Try>, answers: Pair -> bool): (r: Scan)
    ensures r.Sound()
    decreases |tries|
  {
    if tries == [] then START else Tackle(Run(tries[..|tries| - 1], answers), tries[|tries| - 1], answers)
  }

  // What the scan should make of these tries.

  function PciOf(t: Try): seq<int>
    requires Full(t)
  {
    seq(t.model.ports, p requires 0 <= p < t.model.ports => t.devices[Seat(t.model, p)].pci)
  }

  /** A finished card whose CPLD answers. */
  predicate Works(t: Try, answers: Pair -> bool) {
    Full(t) && CardResponds(t.model, PciOf(t), answers)
  }

  /** Which tries find such a card. */
  function Accepted(tries: seq<Try>, answers: Pair -> bool): (r: seq<nat>)
    ensures forall c | 0 <= c < |r| :: r[c] < |tries| && Works(tries[r[c]], answers)
    ensures forall c, d | 0 <= c < d < |r| :: r[c] < r[d]
    decreases |tries|
  {
    if tries == [] then []
    else
      var earlier := Accepted(tries[..|tries| - 1], answers);
      if Works(tries[|tries| - 1], answers) then earlier + [|tries| - 1] else earlier
  }

  /** How many ports of the slot to be filled next still hold network devices of cards that were rejected
      or never finished. */
  function Leftover(tries: seq<Try>, answers: Pair -> bool): nat
    decreases |tries|
  {
    if tries == [] || Works(tries[|tries| - 1], answers) then 0
    else Max(Leftover(tries[..|tries| - 1], answers), |tries[|tries| - 1].devices|)
  }

  function Max(a: nat, b: nat): nat {
    if a < b then b else a
  }

  /** The port holds the device, and a network device, which is the device's own if it has one. */
  predicate HoldsDevice(slot: Slot, p: nat, d: Device)
    requires p < MAX_PORT_PER_CARD
  {
    slot.pci[p] == d.pci && slot.net[p].Some? && (d.net.Some? ==> slot.net[p] == d.net)
  }

  /** The first ports hold these devices. */
  predicate HoldsAll(slot: Slot, devices: seq<Device>)
    requires |devices| <= MAX_PORT_PER_CARD
  {
    forall p | 0 <= p < |devices| :: HoldsDevice(slot, p, devices[p])
  }

  /** The slot is the card of the try, each device at the port it belongs to. */
  predicate Holds(slot: Slot, t: Try)
    requires Full(t)
  {
    slot.model == t.model && forall p | 0 <= p < t.model.ports :: HoldsDevice(slot, p, t.devices[Seat(t.model, p)])
  }

  /** Of the slots not yet accepted only the next one holds network devices: those of the unfinished
      card and the leftovers. */
  predicate Filled(st: Scan, left: nat)
    requires st.Sound()
  {
    forall c, p | st.maxcard <= c < MAX_CARD && 0 <= p < MAX_PORT_PER_CARD ::
      st.slots[c].net[p].Some? <==> c == st.maxcard && (p < st.port || p < left)
  }

  /** Some device has no network device where no leftover hides that. */
  predicate Lacks(devices: seq<Device>, left: nat) {
    exists p | 0 <= p < |devices| :: devices[p].net.None? && left <= p
  }

  lemma ArrangedAt(model: Model, slot: Slot, p: nat)
    requires p < model.ports
    ensures var card := Arranged(model, slot);
      card.model == model && card.pci[p] == slot.pci[Seat(model, p)] && card.net[p] == slot.net[Seat(model, p)]
  {
  }

  /** A finished and arranged card holds its try. */
  lemma ArrangedHolds(slot: Slot, t: Try)
    requires Full(t) && HoldsAll(slot, t.devices)
    ensures Holds(Arranged(t.model, slot), t)
    ensures Arranged(t.model, slot).pci[..t.model.ports] == PciOf(t)
  {
    hide Seat, Arranged;
    var card := Arranged(t.model, slot);
    ArrangedAt(t.model, slot, 0);
    forall p | 0 <= p < t.model.ports
      ensures HoldsDevice(card, p, t.devices[Seat(t.model, p)]) && card.pci[p] == PciOf(t)[p]
    {
      ArrangedAt(t.model, slot, p);
      assert HoldsDevice(slot, Seat(t.model, p), t.devices[Seat(t.model, p)]);
    }
  }

  lemma PlacedHolds(slot: Slot, devices: seq<Device>, d: Device)
    requires |devices| < MAX_PORT_PER_CARD && HoldsAll(slot, devices)
    requires Placed(slot, |devices|, d).net[|devices|].Some?
    ensures HoldsAll(Placed(slot, |devices|, d), devices + [d])
  {
    var placed := Placed(slot, |devices|, d);
    forall p | 0 <= p < |devices| + 1
      ensures HoldsDevice(placed, p, (devices + [d])[p])
    {
      assert p < |devices| ==> HoldsDevice(slot, p, devices[p]);
    }
  }

  lemma StepFails(st: Scan, d: Device, left: nat, answers: Pair -> bool)
    requires st.Sound() && st.rc == 0 && Filled(st, left)
    ensures Step(st, d, answers).rc ==
      if st.port == 0 && st.maxcard == MAX_CARD then -E2BIG
      else if d.net.None? && left <= st.port then -ENXIO
      else 0
  {
    hide Arranged, CardResponds;
  }

  lemma StepFills(st: Scan, d: Device, left: nat, answers: Pair -> bool)
    requires st.Sound() && st.rc == 0 && Filled(st, left) && Step(st, d, answers).rc == 0
    ensures var r := Step(st, d, answers);
      Filled(r, if r.maxcard > st.maxcard then 0 else if r.port == 0 then Max(left, st.model.ports) else left)
  {
    hide CardResponds;
  }

  lemma StaysFailed(st: Scan, d: Device, answers: Pair -> bool)
    requires st.Sound() && st.rc != 0
    ensures Step(st, d, answers) == st
  {
  }

  /** Inside a card: the devices so far are in place, and the rounds fail exactly if one too many card begins or
      a network device is missing. */
  lemma {:induction false} SeriesIsOpen(st: Scan, devices: seq<Device>, left: nat, answers: Pair -> bool)
    requires st.Sound() && st.rc == 0 && st.port == 0 && |devices| < st.model.ports && Filled(st, left)
    ensures var r := Series(st, devices, answers);
      && r.rc == (if devices == [] then 0 else if st.maxcard == MAX_CARD then -E2BIG
                  else if Lacks(devices, left) then -ENXIO else 0)
      && (r.rc == 0 ==>
            && r.port == |devices| && r.maxcard == st.maxcard && Filled(r, left)
            && (st.maxcard < MAX_CARD ==>
                  r.slots == st.slots[st.maxcard := r.slots[st.maxcard]] && HoldsAll(r.slots[st.maxcard], devices)))
    decreases |devices|
  {
    hide Filled, Placed, Arranged, CardResponds, HoldsAll, Lacks;
    NothingIsHeld(st, left);
    if devices != [] {
      var earlier, d := devices[..|devices| - 1], devices[|devices| - 1];
      assert devices == earlier + [d];
      SeriesIsOpen(st, earlier, left, answers);
      LacksGrows(earlier, d, left);
      var before := Series(st, earlier, answers);
      if before.rc != 0 {
        StaysFailed(before, d, answers);
      } else {
        StepFails(before, d, left, answers);
        if Step(before, d, answers).rc == 0 {
          StepFills(before, d, left, answers);
          PlacedHolds(before.slots[st.maxcard], earlier, d);
        }
      }
    }
  }

  lemma NothingIsHeld(st: Scan, left: nat)
    requires st.Sound()
    ensures !Lacks([], left) && forall c | 0 <= c < MAX_CARD :: HoldsAll(st.slots[c], [])
  {
  }

  lemma LacksGrows(devices: seq<Device>, d: Device, left: nat)
    ensures Lacks(devices + [d], left) <==> Lacks(devices, left) || (d.net.None? && left <= |devices|)
  {
    var more := devices + [d];
    assert more[|devices|] == d;
    if Lacks(devices, left) {
      var p :| 0 <= p < |devices| && devices[p].net.None? && left <= p;
      assert more[p].net.None?;
    }
  }

  /** What one whole try does: how it can fail, what it leaves in the slots and whether the card is accepted. */
  predicate Done(st: Scan, r: Scan, t: Try, left: nat, answers: Pair -> bool)
    requires st.Sound() && r.Sound()
  {
    && r.rc == (if st.maxcard == MAX_CARD then -E2BIG else if Lacks(t.devices, left) then -ENXIO else 0)
    && (r.rc == 0 ==>
          && r.maxcard == (if Works(t, answers) then st.maxcard + 1 else st.maxcard)
          && (forall c | 0 <= c < st.maxcard :: r.slots[c] == st.slots[c])
          && (Works(t, answers) ==> Holds(r.slots[st.maxcard], t))
          && Filled(r.(port := 0), if Works(t, answers) then 0 else Max(left, |t.devices|)))
  }

  lemma OpenDoes(st: Scan, t: Try, left: nat, answers: Pair -> bool)
    requires st.Sound() && st.rc == 0 && st.port == 0 && st.model == t.model && Filled(st, left) && !Full(t)
    ensures Done(st, Series(st, t.devices, answers), t, left, answers)
  {
    hide HoldsAll, Holds, Lacks, Works, Filled, Series;
    SeriesIsOpen(st, t.devices, left, answers);
    OpenWaits(Series(st, t.devices, answers), t, left, answers);
  }

  lemma FullDoes(st: Scan, t: Try, left: nat, answers: Pair -> bool)
    requires st.Sound() && st.rc == 0 && st.port == 0 && st.model == t.model && Filled(st, left) && Full(t)
    ensures Done(st, Series(st, t.devices, answers), t, left, answers)
  {
    hide HoldsAll, Holds, Lacks, Works, Filled, Step, Series;
    var earlier, d := t.devices[..|t.devices| - 1], t.devices[|t.devices| - 1];
    assert t.devices == earlier + [d];
    SeriesAdds(st, earlier, d, answers);
    SeriesIsOpen(st, earlier, left, answers);
    LacksGrows(earlier, d, left);
    NothingIsHeld(st, left);
    var before := Series(st, earlier, answers);
    if before.rc != 0 {
      StaysFailed(before, d, answers);
    } else {
      StepFails(before, d, left, answers);
      if Step(before, d, answers).rc == 0 {
        LastStep(before, t, left, answers);
        PortIsZero(Step(before, d, answers));
      }
    }
  }

  lemma PortIsZero(st: Scan)
    ensures st.port == 0 ==> st.(port := 0) == st
  {
  }

  lemma TackleDoes(st: Scan, t: Try, left: nat, answers: Pair -> bool)
    requires st.Sound() && st.rc == 0 && Filled(st.(port := 0), left)
    ensures Done(st, Tackle(st, t, answers), t, left, answers)
  {
    SamePlaces(st, t.model, left);
    hide HoldsAll, Holds, Lacks, Works, Filled, Series;
    if Full(t) {
      FullDoes(st.(model := t.model, port := 0), t, left, answers);
    } else {
      OpenDoes(st.(model := t.model, port := 0), t, left, answers);
    }
  }

  lemma SamePlaces(st: Scan, model: Model, left: nat)
    requires st.Sound()
    ensures Filled(st.(port := 0), left) == Filled(st.(model := model, port := 0), left)
  {
  }

  lemma OpenWaits(st: Scan, t: Try, left: nat, answers: Pair -> bool)
    requires !Full(t)
    ensures !Works(t, answers)
    ensures st.Sound() && st.port == |t.devices| && Filled(st, left) ==> Filled(st.(port := 0), Max(left, |t.devices|))
  {
  }

  /** The round that finishes a card. */
  lemma LastStep(st: Scan, t: Try, left: nat, answers: Pair -> bool)
    requires st.Sound() && st.rc == 0 && Filled(st, left) && Full(t) && st.model == t.model
    requires st.port == |t.devices| - 1 && st.maxcard < MAX_CARD && HoldsAll(st.slots[st.maxcard], t.devices[..st.port])
    requires Step(st, t.devices[st.port], answers).rc == 0
    ensures var r := Step(st, t.devices[st.port], answers);
      && r.maxcard == (if Works(t, answers) then st.maxcard + 1 else st.maxcard)
      && r.port == 0 && (forall c | 0 <= c < MAX_CARD && c != st.maxcard :: r.slots[c] == st.slots[c])
      && Holds(r.slots[st.maxcard], t)
      && Filled(r, if Works(t, answers) then 0 else Max(left, |t.devices|))
  {
    var d := t.devices[st.port];
    StepFills(st, d, left, answers);
    assert t.devices[..st.port] + [d] == t.devices;
    hide Placed, Arranged, HoldsAll, Holds, Filled, Seat, Responds, Tried;
    var placed := Placed(st.slots[st.maxcard], st.port, d);
    PlacedHolds(st.slots[st.maxcard], t.devices[..st.port], d);
    ArrangedHolds(placed, t);
  }

  predicate Inv(st: Scan, tries: seq<Try>, answers: Pair -> bool) {
    var accepted := Accepted(tries, answers);
    && st.Sound() && st.maxcard == |accepted|
    && (forall c | 0 <= c < |accepted| :: Holds(st.slots[c], tries[accepted[c]]))
  }

  lemma TackleKeeps(st: Scan, earlier: seq<Try>, t: Try, answers: Pair -> bool)
    requires Inv(st, earlier, answers) && st.rc == 0 && Filled(st.(port := 0), Leftover(earlier, answers))
    requires Tackle(st, t, answers).rc == 0
    ensures var r := Tackle(st, t, answers);
      Inv(r, earlier + [t], answers) && Filled(r.(port := 0), Leftover(earlier + [t], answers))
  {
    TryAdded(earlier, t, answers);
    hide Holds, Tackle, Works, Filled, Lacks, Accepted, Leftover;
    TackleDoes(st, t, Leftover(earlier, answers), answers);
  }

  lemma TryAdded(earlier: seq<Try>, t: Try, answers: Pair -> bool)
    ensures Accepted(earlier + [t], answers)
         == if Works(t, answers) then Accepted(earlier, answers) + [|earlier|] else Accepted(earlier, answers)
    ensures Leftover(earlier + [t], answers)
         == if Works(t, answers) then 0 else Max(Leftover(earlier, answers), |t.devices|)
  {
    hide Works;
    assert (earlier + [t])[..|earlier|] == earlier;
  }

  lemma StartIsFilled(answers: Pair -> bool)
    ensures Filled(Run([], answers).(port := 0), Leftover([], answers))
  {
  }

  /** A scan that goes through fills the slots, in order and without a gap, with exactly the tries that find a card
      whose CPLD answers: each has its consecutive devices at the ports they belong to, and each port has
      a network device, its own exactly if there is one. Of the other slots only the next one holds network
      devices, at just the ports that an unfinished or rejected card has left behind. */
  lemma {:induction false} ScanFindsTheCards(tries: seq<Try>, answers: Pair -> bool)
    requires Run(tries, answers).rc == 0
    ensures Inv(Run(tries, answers), tries, answers)
    ensures Filled(Run(tries, answers).(port := 0), Leftover(tries, answers))
    decreases |tries|
  {
    if tries == [] {
      StartIsFilled(answers);
    } else {
      var earlier, t := tries[..|tries| - 1], tries[|tries| - 1];
      assert tries == earlier + [t];
      hide Inv, Series, Filled, Leftover;
      ScanFindsTheCards(earlier, answers);
      TackleKeeps(Run(earlier, answers), earlier, t, answers);
    }
  }

  /** One card too many: the k-th try begins when four cards are accepted. */
  predicate OneTooMany(tries: seq<Try>, k: nat, answers: Pair -> bool)
    requires k < |tries|
  {
    |Accepted(tries[..k], answers)| == 4
  }

  /** A function of the k-th try without a network device, at a port where no leftover hides it. */
  predicate MissingNet(tries: seq<Try>, k: nat, answers: Pair -> bool)
    requires k < |tries|
  {
    Lacks(tries[k].devices, Leftover(tries[..k], answers))
  }

  lemma LastTryFails(tries: seq<Try>, answers: Pair -> bool)
    requires tries != [] && Run(tries[..|tries| - 1], answers).rc == 0
    ensures Run(tries, answers).rc ==
      if OneTooMany(tries, |tries| - 1, answers) then -E2BIG else if MissingNet(tries, |tries| - 1, answers) then -ENXIO
      else 0
  {
    hide Series, Leftover, Filled, Lacks, Holds, Works;
    var earlier, t := tries[..|tries| - 1], tries[|tries| - 1];
    ScanFindsTheCards(earlier, answers);
    TackleDoes(Run(earlier, answers), t, Leftover(earlier, answers), answers);
  }

  lemma FailsAsBefore(tries: seq<Try>, k: nat, answers: Pair -> bool)
    requires k < |tries| - 1
    ensures OneTooMany(tries, k, answers) == OneTooMany(tries[..|tries| - 1], k, answers)
    ensures MissingNet(tries, k, answers) == MissingNet(tries[..|tries| - 1], k, answers)
  {
    assert tries[..|tries| - 1][..k] == tries[..k];
  }

  /** The try at which the scan ends, and how. */
  predicate FailsAt(tries: seq<Try>, k: nat, answers: Pair -> bool, rc: int)
    requires k < |tries|
  {
    && (forall j | 0 <= j < k :: !OneTooMany(tries, j, answers) && !MissingNet(tries, j, answers))
    && (if OneTooMany(tries, k, answers) then rc == -7 else MissingNet(tries, k, answers) && rc == -6)
  }

  /** A scan goes through if and only if no try follows the fourth accepted card, be it one that would be rejected
      or never gets finished, and no network device is missing where no leftover of a dropped card hides it;
      the first such try decides the error. */
  lemma {:induction false} ScanSucceedsExactly(tries: seq<Try>, answers: Pair -> bool)
    ensures Run(tries, answers).rc == 0 <==>
      forall k | 0 <= k < |tries| :: !OneTooMany(tries, k, answers) && !MissingNet(tries, k, answers)
    ensures Run(tries, answers).rc != 0 ==>
      exists k | 0 <= k < |tries| :: FailsAt(tries, k, answers, Run(tries, answers).rc)
    decreases |tries|
  {
    hide Tackle, OneTooMany, MissingNet;
    if tries != [] {
      var earlier := tries[..|tries| - 1];
      ScanSucceedsExactly(earlier, answers);
      forall k | 0 <= k < |earlier|
        ensures OneTooMany(tries, k, answers) == OneTooMany(earlier, k, answers)
        ensures MissingNet(tries, k, answers) == MissingNet(earlier, k, answers)
      {
        FailsAsBefore(tries, k, answers);
      }
      if Run(earlier, answers).rc == 0 {
        LastTryFails(tries, answers);
        assert Run(tries, answers).rc != 0 ==> FailsAt(tries, |earlier|, answers, Run(tries, answers).rc);
      } else {
        FailedStays(Run(earlier, answers), tries[|earlier|], answers);
        var k :| 0 <= k < |earlier| && FailsAt(earlier, k, answers, Run(earlier, answers).rc);
        assert FailsAt(tries, k, answers, Run(tries, answers).rc);
      }
    }
  }

  lemma FailedStays(st: Scan, t: Try, answers: Pair -> bool)
    requires st.Sound() && st.rc != 0
    ensures Tackle(st, t, answers) == st
  {
  }

  lemma FailsOnce(tries: seq<Try>, j: nat, k: nat, answers: Pair -> bool, rc: int, other: int)
    requires j < |tries| && k < |tries| && FailsAt(tries, j, answers, rc) && FailsAt(tries, k, answers, other)
    ensures rc == other
  {
    hide OneTooMany, MissingNet;
  }

  // The driver.

  lemma {:induction false} TriedPrefix(side: Side, devices: seq<int>, i: nat, ports: nat)
    requires i <= ports <= |devices|
    ensures Tried(side, devices, i) <= Tried(side, devices, ports)
    decreases ports
  {
    if i < ports {
      TriedPrefix(side, devices, i, ports - 1);
    }
  }

  /** The search over a longer list goes on where the shorter one ended, unless that one succeeded. */
  lemma {:induction false} ChosenGoesOn(tried: seq<Pair>, more: seq<Pair>, answers: Pair -> bool, before: Pair)
    ensures Chosen(tried + more, answers, before) ==
      if Responds(tried, answers) then Chosen(tried, answers, before)
      else Chosen(more, answers, Chosen(tried, answers, before))
    ensures Responds(tried + more, answers) == (Responds(tried, answers) || Responds(more, answers))
  {
    if tried == [] {
      assert tried + more == more;
    } else {
      assert (tried + more)[1..] == tried[1..] + more;
      ChosenGoesOn(tried[1..], more, answers, tried[0]);
      assert forall p :: p in tried <==> p == tried[0] || p in tried[1..];
    }
  }

  /** A failed scan stays as it is. */
  lemma {:induction false} FailureIsFinal(tries: seq<Try>, more: seq<Try>, answers: Pair -> bool)
    requires Run(tries, answers).rc != 0
    ensures Run(tries + more, answers) == Run(tries, answers)
    decreases |more|
  {
    if more == [] {
      assert tries + more == tries;
    } else {
      var last := |more| - 1;
      FailureIsFinal(tries, more[..last], answers);
      assert tries + more == (tries + more[..last]) + [more[last]];
      RunAdds(tries + more[..last], more[last], answers);
    }
  }

  lemma RunAdds(tries: seq<Try>, t: Try, answers: Pair -> bool)
    ensures Run(tries + [t], answers) == Tackle(Run(tries, answers), t, answers)
  {
    assert (tries + [t])[..|tries|] == tries;
  }

  lemma SeriesAdds(st: Scan, devices: seq<Device>, d: Device, answers: Pair -> bool)
    requires st.Sound()
    ensures Series(st, devices + [d], answers) == Step(Series(st, devices, answers), d, answers)
  {
    assert (devices + [d])[..|devices|] == devices;
  }

  lemma {:induction false} SeriesStaysFailed(st: Scan, devices: seq<Device>, more: seq<Device>, answers: Pair -> bool)
    requires st.Sound() && Series(st, devices, answers).rc != 0
    ensures Series(st, devices + more, answers) == Series(st, devices, answers)
    decreases |more|
  {
    if more == [] {
      assert devices + more == devices;
    } else {
      var last := |more| - 1;
      SeriesStaysFailed(st, devices, more[..last], answers);
      assert devices + more == (devices + more[..last]) + [more[last]];
      SeriesAdds(st, devices + more[..last], more[last], answers);
    }
  }

  // What niagara_init sees of a system.

  /** The functions of one table entry, in the order of the kernel's list. */
  datatype Bus = Bus(model: Model, devices: seq<Device>)

  predicate Distinct(devices: seq<Device>) {
    forall i, j | 0 <= i < j < |devices| :: devices[i].pci != devices[j].pci
  }

  /** pci_get_subsys: the first function of the entry, or the one after the given one. */
  function Following(devices: seq<Device>, from: Option<int>): Option<Device> {
    if devices == [] then None
    else if from.None? then Some(devices[0])
    else Following(devices[1..], if devices[0].pci == from.value then None else from)
  }

  lemma {:induction false} FollowingIsNext(devices: seq<Device>, k: nat)
    requires Distinct(devices) && k < |devices|
    ensures Following(devices, Some(devices[k].pci)) == if k + 1 < |devices| then Some(devices[k + 1]) else None
  {
    if k > 0 {
      FollowingIsNext(devices[1..], k - 1);
    }
  }

  /** The last port that the swap exchanges with the one two below; 0 if there is none. */
  function LastSwapped(ports: int): (r: int)
    ensures if ports <= 2 then r == 0 else 2 <= r < ports && r / 2 % 2 == 1
    decreases ports
  {
    if ports <= 2 then 0 else if (ports - 1) / 2 % 2 == 1 then ports - 1 else LastSwapped(ports - 1)
  }

  /** The swap of a finished card leaves the cursor of the enumeration inside that card. */
  predicate Rewinds(model: Model) {
    model.swapped && model.ports > 2
  }

  /** How far from its first function the enumeration goes on after a finished card. */
  function Stride(model: Model): (r: nat)
    ensures 1 <= r <= model.ports && (r < model.ports <==> Rewinds(model))
  {
    if Rewinds(model) then LastSwapped(model.ports) - 1 else model.ports
  }

  /** Only cards of the two swapped models are rearranged, and of four ports the first two change places with the
      last two. */
  lemma SwapExactly(model: Model, p: nat)
    requires p < model.ports
    ensures !model.swapped || model.ports <= 2 ==> Seat(model, p) == p && Stride(model) == model.ports
    ensures model.swapped && model.ports == 4 ==> Seat(model, p) == (p + 2) % 4 && Stride(model) == 2
  {
  }

  function TryAt(bus: Bus, i: nat, start: nat): Try
    requires start < |bus.devices|
  {
    var end := if start + bus.model.ports <= |bus.devices| then start + bus.model.ports else |bus.devices|;
    Attempt(bus.model, bus.devices[start..end], i, start)
  }

  /** The tries for one table entry, from one function on. */
  function TriesFrom(bus: Bus, i: nat, start: nat): seq<Try>
    requires start <= |bus.devices|
    decreases |bus.devices| - start
  {
    if start == |bus.devices| then []
    else if start + bus.model.ports > |bus.devices| then [TryAt(bus, i, start)]
    else [TryAt(bus, i, start)] + TriesFrom(bus, i, start + Stride(bus.model))
  }

  /** All tries, in the order of the scan. */
  function Tries(buses: seq<Bus>): seq<Try> {
    if buses == [] then []
    else Tries(buses[..|buses| - 1]) + TriesFrom(buses[|buses| - 1], |buses| - 1, 0)
  }

  // What that means for the cards of a system.

  /** One try is made of functions of its table entry and comes, in the order of the scan, before another. */
  predicate Precedes(a: Try, b: Try) {
    a.bus < b.bus || (a.bus == b.bus && Full(a) && a.start + Stride(a.model) <= b.start)
  }

  predicate Belongs(t: Try, buses: seq<Bus>) {
    t.bus < |buses| && t.start < |buses[t.bus].devices| && t == TryAt(buses[t.bus], t.bus, t.start)
  }

  predicate InOrder(tries: seq<Try>) {
    forall j, k | 0 <= j < k < |tries| :: Precedes(tries[j], tries[k])
  }

  predicate AllBelong(tries: seq<Try>, buses: seq<Bus>) {
    forall k | 0 <= k < |tries| :: Belongs(tries[k], buses)
  }

  predicate Within(t: Try, bus: Bus, i: nat, start: nat) {
    start <= t.start < |bus.devices| && t == TryAt(bus, i, t.start)
  }

  predicate AllWithin(tries: seq<Try>, bus: Bus, i: nat, start: nat) {
    forall k | 0 <= k < |tries| :: Within(tries[k], bus, i, start)
  }

  lemma FirstWithin(rest: seq<Try>, bus: Bus, i: nat, start: nat)
    requires start + bus.model.ports <= |bus.devices|
    requires AllWithin(rest, bus, i, start + Stride(bus.model)) && InOrder(rest)
    ensures AllWithin([TryAt(bus, i, start)] + rest, bus, i, start) && InOrder([TryAt(bus, i, start)] + rest)
  {
    var first, next := TryAt(bus, i, start), start + Stride(bus.model);
    var tries := [first] + rest;
    forall k | 0 <= k < |tries|
      ensures Within(tries[k], bus, i, start) && (k > 0 ==> Precedes(first, tries[k]))
    {
      assert k > 0 ==> tries[k] == rest[k - 1] && Within(rest[k - 1], bus, i, next);
    }
    forall j, k | 0 <= j < k < |tries|
      ensures Precedes(tries[j], tries[k])
    {
      assert j > 0 ==> tries[j] == rest[j - 1] && tries[k] == rest[k - 1] && Precedes(rest[j - 1], rest[k - 1]);
    }
  }

  lemma {:induction false} TriesFromAre(bus: Bus, i: nat, start: nat)
    requires start <= |bus.devices|
    ensures AllWithin(TriesFrom(bus, i, start), bus, i, start) && InOrder(TriesFrom(bus, i, start))
    decreases |bus.devices| - start
  {
    if start + bus.model.ports <= |bus.devices| {
      hide LastSwapped, AllWithin, InOrder;
      TriesFromAre(bus, i, start + Stride(bus.model));
      FirstWithin(TriesFrom(bus, i, start + Stride(bus.model)), bus, i, start);
    }
  }

  lemma LaterBelong(earlier: seq<Try>, more: seq<Try>, buses: seq<Bus>)
    requires buses != [] && AllBelong(earlier, buses[..|buses| - 1]) && InOrder(earlier)
    requires AllWithin(more, buses[|buses| - 1], |buses| - 1, 0) && InOrder(more)
    ensures AllBelong(earlier + more, buses) && InOrder(earlier + more)
    ensures forall k | 0 <= k < |earlier + more| :: k < |earlier| <==> (earlier + more)[k].bus < |buses| - 1
  {
    var tries, last := earlier + more, |buses| - 1;
    forall k | 0 <= k < |tries|
      ensures Belongs(tries[k], buses) && (k < |earlier| <==> tries[k].bus < last)
    {
      if k < |earlier| {
        assert tries[k] == earlier[k] && Belongs(earlier[k], buses[..last]);
      } else {
        assert tries[k] == more[k - |earlier|] && Within(more[k - |earlier|], buses[last], last, 0);
      }
    }
    forall j, k | 0 <= j < k < |tries|
      ensures Precedes(tries[j], tries[k])
    {
      if k < |earlier| {
        assert tries[j] == earlier[j] && tries[k] == earlier[k];
      } else if j >= |earlier| {
        assert tries[j] == more[j - |earlier|] && tries[k] == more[k - |earlier|];
      } else {
        assert Belongs(tries[k], buses) && tries[j].bus < last;
      }
    }
  }

  lemma {:induction false} TriesAre(buses: seq<Bus>)
    ensures AllBelong(Tries(buses), buses) && InOrder(Tries(buses))
  {
    if buses != [] {
      hide AllWithin, InOrder, AllBelong, TriesFrom;
      var last := |buses| - 1;
      TriesAre(buses[..last]);
      TriesFromAre(buses[last], last, 0);
      LaterBelong(Tries(buses[..last]), TriesFrom(buses[last], last, 0), buses);
    }
  }

  /** Two tries have a function in common. */
  predicate Shares(a: Try, b: Try) {
    a.bus == b.bus && a.start < b.start + |b.devices| && b.start < a.start + |a.devices|
  }

  predicate Apart(tries: seq<Try>, answers: Pair -> bool) {
    var accepted := Accepted(tries, answers);
    forall c, d | 0 <= c < d < |accepted| :: !Shares(tries[accepted[c]], tries[accepted[d]])
  }

  /** There are enough functions for two cards that overlap. */
  predicate Overlaps(bus: Bus) {
    Rewinds(bus.model) && bus.model.ports + Stride(bus.model) <= |bus.devices|
  }

  /** And such cards can be accepted. */
  predicate Crowded(bus: Bus) {
    Overlaps(bus) && !bus.model.side.Unknown?
  }

  /** The cards that are there: one after the other. */
  function CardsOf(bus: Bus, i: nat, start: nat): seq<Try>
    decreases |bus.devices| - start
  {
    if start + bus.model.ports > |bus.devices| then []
    else [TryAt(bus, i, start)] + CardsOf(bus, i, start + bus.model.ports)
  }

  function Finished(tries: seq<Try>): seq<Try> {
    if tries == [] then [] else (if Full(tries[0]) then [tries[0]] else []) + Finished(tries[1..])
  }

  lemma FinishedGoesOn(bus: Bus, i: nat, start: nat)
    requires start <= |bus.devices|
    ensures Finished(TriesFrom(bus, i, start)) ==
      if start + bus.model.ports > |bus.devices| then []
      else [TryAt(bus, i, start)] + Finished(TriesFrom(bus, i, start + Stride(bus.model)))
  {
    hide Stride;
    if start + bus.model.ports <= |bus.devices| {
      assert TriesFrom(bus, i, start)[1..] == TriesFrom(bus, i, start + Stride(bus.model));
    } else if start < |bus.devices| {
      assert TriesFrom(bus, i, start) == [TryAt(bus, i, start)];
      assert [TryAt(bus, i, start)][1..] == [];
    }
  }

  lemma {:induction false} StraightFindsAll(bus: Bus, i: nat, start: nat)
    requires start <= |bus.devices| && !Rewinds(bus.model)
    ensures Finished(TriesFrom(bus, i, start)) == CardsOf(bus, i, start)
    decreases |bus.devices| - start
  {
    hide TriesFrom, Finished;
    FinishedGoesOn(bus, i, start);
    if start + bus.model.ports <= |bus.devices| {
      StraightFindsAll(bus, i, start + bus.model.ports);
    }
  }

  /** The finished tries of a table entry are the cards that are there, each once, if and only if its segments are
      not swapped or no second card follows closely enough. */
  lemma CardsAreFoundExactly(bus: Bus, i: nat)
    ensures Finished(TriesFrom(bus, i, 0)) == CardsOf(bus, i, 0) <==> !Overlaps(bus)
  {
    hide TriesFrom, Finished, LastSwapped;
    var ports, stride := bus.model.ports, Stride(bus.model);
    FinishedGoesOn(bus, i, 0);
    if !Rewinds(bus.model) {
      StraightFindsAll(bus, i, 0);
    } else if ports <= |bus.devices| {
      FinishedGoesOn(bus, i, stride);
      if ports + stride <= |bus.devices| {
        assert Finished(TriesFrom(bus, i, 0))[1].start == stride;
        assert |CardsOf(bus, i, 0)| > 1 ==> CardsOf(bus, i, 0)[1].start == ports;
      }
    }
  }

  /** Every CPLD answers. */
  predicate Always(pair: Pair) {
    true
  }

  lemma KnownIsTried(model: Model, pci: seq<int>)
    requires |pci| == model.ports && model.ports >= 2 && !model.side.Unknown?
    ensures CardResponds(model, pci, Always)
  {
    var pair :=
      if model.side.Flash? then Pair(Window(pci[0], 0), Window(pci[0], 2))
      else if model.side.Mdio? then Pair(Window(pci[0], 0), Address(0x01))
      else Pair(Window(pci[0], 0), Window(pci[1], 0));
    assert 0 / 2 == 1 / 2;
    TriedIsWanted(model.side, pci, model.ports, pair);
    hide Tried;
  }

  lemma {:induction false} WorkingIsAccepted(tries: seq<Try>, k: nat, answers: Pair -> bool)
    requires k < |tries| && Works(tries[k], answers)
    ensures k in Accepted(tries, answers)
    decreases |tries|
  {
    hide Works;
    if k < |tries| - 1 {
      WorkingIsAccepted(tries[..|tries| - 1], k, answers);
    }
  }

  lemma OnlyCrowdedShare(buses: seq<Bus>, answers: Pair -> bool, a: Try, b: Try)
    requires Belongs(a, buses) && Belongs(b, buses) && Precedes(a, b)
    requires Works(a, answers) && Works(b, answers) && Shares(a, b)
    ensures exists bus :: bus in buses && Crowded(bus)
  {
    assert buses[a.bus] in buses;
    UnknownIsSilent(a.model, PciOf(a), answers);
  }

  lemma CrowdedHasTwo(bus: Bus, i: nat)
    requires Crowded(bus)
    ensures var tries := TriesFrom(bus, i, 0);
      && |tries| > 1 && Full(tries[0]) && Full(tries[1]) && Shares(tries[0], tries[1])
      && tries[0].model == tries[1].model == bus.model
  {
    hide LastSwapped;
    assert TriesFrom(bus, i, 0) == [TryAt(bus, i, 0)] + TriesFrom(bus, i, Stride(bus.model));
  }

  /** Cards never share a function, whatever answers, if and only if no table entry with swapped segments has so
      many functions that a second card can be tried while the first one is passed. */
  lemma CardsAreApartExactly(buses: seq<Bus>)
    ensures (forall answers :: Apart(Tries(buses), answers)) <==> forall bus :: bus in buses ==> !Crowded(bus)
  {
    TriesAre(buses);
    var tries := Tries(buses);
    hide Tries, Works, Crowded, Belongs, Precedes, Shares, Full;
    if bus :| bus in buses && Crowded(bus) {
      var i :| 0 <= i < |buses| && buses[i] == bus;
      CrowdedIsMet(buses, i);
      assert !Apart(tries, Always);
    } else {
      forall answers
        ensures Apart(tries, answers)
      {
        var accepted := Accepted(tries, answers);
        forall c, d | 0 <= c < d < |accepted|
          ensures !Shares(tries[accepted[c]], tries[accepted[d]])
        {
          if Shares(tries[accepted[c]], tries[accepted[d]]) {
            OnlyCrowdedShare(buses, answers, tries[accepted[c]], tries[accepted[d]]);
          }
        }
      }
    }
  }

  lemma TriesOfEntry(buses: seq<Bus>, i: nat, k: nat)
    requires i < |buses| && k < |TriesFrom(buses[i], i, 0)|
    ensures var x := |Tries(buses[..i])| + k;
      x < |Tries(buses)| && Tries(buses)[x] == TriesFrom(buses[i], i, 0)[k]
  {
    hide TriesFrom;
    assert buses[..i + 1][..i] == buses[..i];
    TriesGoOn(buses, i + 1);
  }

  lemma BothAccepted(tries: seq<Try>, x: nat, answers: Pair -> bool)
    requires x + 1 < |tries| && Works(tries[x], answers) && Works(tries[x + 1], answers)
    requires Shares(tries[x], tries[x + 1])
    ensures !Apart(tries, answers)
  {
    hide Works, Shares;
    WorkingIsAccepted(tries, x, answers);
    WorkingIsAccepted(tries, x + 1, answers);
    var accepted := Accepted(tries, answers);
    hide Accepted;
    var c :| 0 <= c < |accepted| && accepted[c] == x;
    var d :| 0 <= d < |accepted| && accepted[d] == x + 1;
    assert c < d;
  }

  lemma CrowdedIsMet(buses: seq<Bus>, i: nat)
    requires i < |buses| && Crowded(buses[i])
    ensures !Apart(Tries(buses), Always)
  {
    CrowdedHasTwo(buses[i], i);
    var x := |Tries(buses[..i])|;
    TriesOfEntry(buses, i, 0);
    TriesOfEntry(buses, i, 1);
    hide Works, Shares, TriesFrom, Tries, Apart, Stride;
    FullWorks(Tries(buses)[x]);
    FullWorks(Tries(buses)[x + 1]);
    BothAccepted(Tries(buses), x, Always);
  }

  lemma FullWorks(t: Try)
    requires Full(t) && t.model.ports >= 2 && !t.model.side.Unknown?
    ensures Works(t, Always)
  {
    KnownIsTried(t.model, PciOf(t));
  }

  /** No function is two. */
  predicate AllDistinct(buses: seq<Bus>) {
    forall i, j, x, y | 0 <= i < |buses| && 0 <= j < |buses|
      && 0 <= x < |buses[i].devices| && 0 <= y < |buses[j].devices| ::
      buses[i].devices[x].pci == buses[j].devices[y].pci ==> i == j && x == y
  }

  predicate SlotsShare(a: Slot, b: Slot) {
    exists p, q | 0 <= p < a.model.ports && 0 <= q < b.model.ports :: a.pci[p] == b.pci[q]
  }

  /** What two slots have in common after the scan. */
  lemma SlotsShareExactly(buses: seq<Bus>, answers: Pair -> bool, c: nat, d: nat)
    requires AllDistinct(buses)
    ensures var st, tries, accepted := Run(Tries(buses), answers), Tries(buses), Accepted(Tries(buses), answers);
      st.rc == 0 && c < d < st.maxcard ==>
        && st.maxcard == |accepted|
        && (SlotsShare(st.slots[c], st.slots[d]) <==> Shares(tries[accepted[c]], tries[accepted[d]]))
  {
    var st, tries, accepted := Run(Tries(buses), answers), Tries(buses), Accepted(Tries(buses), answers);
    if st.rc == 0 && c < d < st.maxcard {
      ScanFindsTheCards(tries, answers);
      TriesAre(buses);
      hide Run, Tries, Works, Filled, Leftover;
      assert Precedes(tries[accepted[c]], tries[accepted[d]]);
      HoldingShares(buses, st.slots[c], st.slots[d], tries[accepted[c]], tries[accepted[d]]);
    }
  }

  lemma HoldsSeat(slot: Slot, t: Try, buses: seq<Bus>, p: nat)
    requires Full(t) && Holds(slot, t) && Belongs(t, buses) && p < t.model.ports
    ensures slot.pci[p] == buses[t.bus].devices[t.start + Seat(t.model, p)].pci
  {
    hide Seat;
    assert HoldsDevice(slot, p, t.devices[Seat(t.model, p)]);
  }

  lemma SeatOfSeat(model: Model, p: nat)
    requires p < model.ports
    ensures Seat(model, Seat(model, p)) == p
  {
    TwinInvolutes(model.ports, p);
  }

  lemma HoldingShares(buses: seq<Bus>, slotA: Slot, slotB: Slot, a: Try, b: Try)
    requires AllDistinct(buses) && Belongs(a, buses) && Belongs(b, buses) && Precedes(a, b) && Full(a) && Full(b)
    requires Holds(slotA, a) && Holds(slotB, b)
    ensures SlotsShare(slotA, slotB) <==> Shares(a, b)
  {
    hide Seat, HoldsDevice, Stride, AllDistinct, Holds;
    if SlotsShare(slotA, slotB) {
      var p, q :| 0 <= p < slotA.model.ports && 0 <= q < slotB.model.ports && slotA.pci[p] == slotB.pci[q];
      HoldsModel(slotA, a);
      HoldsModel(slotB, b);
      HoldsSeat(slotA, a, buses, p);
      HoldsSeat(slotB, b, buses, q);
      OneFunction(buses, a.bus, b.bus, a.start + Seat(a.model, p), b.start + Seat(b.model, q));
    }
    if Shares(a, b) {
      var p, q := Seat(a.model, b.start - a.start), Seat(b.model, 0);
      SeatOfSeat(a.model, b.start - a.start);
      SeatOfSeat(b.model, 0);
      HoldsModel(slotA, a);
      HoldsModel(slotB, b);
      HoldsSeat(slotA, a, buses, p);
      HoldsSeat(slotB, b, buses, q);
      assert slotA.pci[p] == slotB.pci[q];
    }
  }

  lemma HoldsModel(slot: Slot, t: Try)
    requires Full(t) && Holds(slot, t)
    ensures slot.model == t.model
  {
  }

  lemma OneFunction(buses: seq<Bus>, i: nat, j: nat, x: nat, y: nat)
    requires AllDistinct(buses) && i < |buses| && j < |buses| && x < |buses[i].devices| && y < |buses[j].devices|
    ensures buses[i].devices[x].pci == buses[j].devices[y].pci ==> i == j && x == y
  {
  }

  // When the scan finds too many cards.

  /** A function of the system comes after those of the try. */
  predicate Sequel(buses: seq<Bus>, t: Try) {
    || (t.bus < |buses| && t.start + |t.devices| < |buses[t.bus].devices|)
    || exists i | t.bus < i < |buses| :: buses[i].devices != []
  }

  lemma {:induction false} FollowedInEntry(bus: Bus, i: nat, start: nat, f: nat)
    requires start <= |bus.devices| && f < |TriesFrom(bus, i, start)|
    ensures var t := TriesFrom(bus, i, start)[f];
      f + 1 < |TriesFrom(bus, i, start)| <==> (Full(t) && Rewinds(t.model)) || t.start + |t.devices| < |bus.devices|
    decreases f
  {
    hide LastSwapped;
    if f > 0 {
      FollowedInEntry(bus, i, start + Stride(bus.model), f - 1);
    }
  }

  /** A try is followed by another one exactly if a function is, or if it finished a card whose swap moved the
      cursor back. */
  lemma {:induction false} FollowedExactly(buses: seq<Bus>, f: nat)
    requires f < |Tries(buses)|
    ensures var t := Tries(buses)[f];
      f + 1 < |Tries(buses)| <==> (Full(t) && Rewinds(t.model)) || Sequel(buses, t)
  {
    hide TriesFrom, Rewinds;
    var last := |buses| - 1;
    var earlier, more := Tries(buses[..last]), TriesFrom(buses[last], last, 0);
    TriesFromAre(buses[last], last, 0);
    TriesAre(buses[..last]);
    NoTries(buses[last], last);
    if f < |earlier| {
      FollowedExactly(buses[..last], f);
      assert Belongs(earlier[f], buses[..last]);
    } else {
      FollowedInEntry(buses[last], last, 0, f - |earlier|);
    }
  }

  lemma NoTries(bus: Bus, i: nat)
    ensures TriesFrom(bus, i, 0) == [] <==> bus.devices == []
  {
  }

  /** The fourth accepted card, found before any network device is missed. */
  predicate Fourth(tries: seq<Try>, f: nat, answers: Pair -> bool)
    requires f < |tries|
  {
    && |Accepted(tries[..f + 1], answers)| == MAX_CARD && Works(tries[f], answers)
    && forall k | 0 <= k <= f :: !MissingNet(tries, k, answers)
  }

  lemma {:induction false} AcceptedGrows(tries: seq<Try>, j: nat, answers: Pair -> bool)
    requires j <= |tries|
    ensures |Accepted(tries[..j], answers)| <= |Accepted(tries, answers)|
    decreases |tries|
  {
    if j < |tries| {
      assert tries[..|tries| - 1][..j] == tries[..j];
      AcceptedGrows(tries[..|tries| - 1], j, answers);
    } else {
      assert tries[..j] == tries;
    }
  }

  lemma OneMoreTry(tries: seq<Try>, f: nat, answers: Pair -> bool)
    requires f < |tries|
    ensures |Accepted(tries[..f + 1], answers)|
         == |Accepted(tries[..f], answers)| + if Works(tries[f], answers) then 1 else 0
  {
    hide Works;
    assert tries[..f + 1][..f] == tries[..f];
  }

  /** The scan complains of too many cards exactly if there is a fourth card and, after it, a function at all or the
      card's own last ones, seen again. */
  lemma TooManyExactly(buses: seq<Bus>, answers: Pair -> bool)
    ensures Run(Tries(buses), answers).rc == -7 <==>
      exists f | 0 <= f < |Tries(buses)| ::
        Fourth(Tries(buses), f, answers) && (Rewinds(Tries(buses)[f].model) || Sequel(buses, Tries(buses)[f]))
  {
    hide Run, Tries, Works, Accepted, MissingNet, Rewinds, Sequel;
    var tries, rc := Tries(buses), Run(Tries(buses), answers).rc;
    ScanSucceedsExactly(tries, answers);
    if rc == -E2BIG {
      var k :| 0 <= k < |tries| && FailsAt(tries, k, answers, rc);
      NoneAccepted(tries, answers);
      OneMoreTry(tries, k - 1, answers);
      assert !OneTooMany(tries, k - 1, answers);
      FollowedExactly(buses, k - 1);
      assert Fourth(tries, k - 1, answers);
    }
    if f :| 0 <= f < |tries| && Fourth(tries, f, answers) && (Rewinds(tries[f].model) || Sequel(buses, tries[f])) {
      FollowedExactly(buses, f);
      assert Full(tries[f]) by { WorksIsFull(tries[f], answers); }
      OneMoreTry(tries, f, answers);
      forall j | 0 <= j <= f
        ensures !OneTooMany(tries, j, answers)
      {
        AcceptedGrows(tries[..f], j, answers);
        assert tries[..f][..j] == tries[..j];
      }
      assert OneTooMany(tries, f + 1, answers);
      assert FailsAt(tries, f + 1, answers, -E2BIG);
      var k :| 0 <= k < |tries| && FailsAt(tries, k, answers, rc);
      FailsOnce(tries, f + 1, k, answers, -E2BIG, rc);
    }
  }

  lemma WorksIsFull(t: Try, answers: Pair -> bool)
    requires Works(t, answers)
    ensures Full(t)
  {
  }

  lemma NoneAccepted(tries: seq<Try>, answers: Pair -> bool)
    ensures |Accepted(tries[..0], answers)| == 0
  {
  }

  // Systems with which the driver goes wrong.

  /** A number of four-port cards with swapped segments and a network device at each port, alone. */
  predicate OnlySwapped(bus: Bus, n: nat) {
    && bus.model.swapped && bus.model.ports == 4 && !bus.model.side.Unknown? && n > 0 && |bus.devices| == 4 * n
    && forall x | 0 <= x < |bus.devices| :: bus.devices[x].net.Some?
  }

  lemma FourSwapped(model: Model)
    requires model.swapped && model.ports == 4
    ensures Stride(model) == 2 && Rewinds(model)
    ensures Seat(model, 0) == 2 && Seat(model, 1) == 3 && Seat(model, 2) == 0 && Seat(model, 3) == 1
  {
  }

  /** They are tried at every other function. */
  lemma {:induction false} EveryOther(bus: Bus, i: nat, start: nat, half: nat, k: nat)
    requires bus.model.swapped && bus.model.ports == 4 && |bus.devices| == start + 2 * half
    ensures |TriesFrom(bus, i, start)| == half
    ensures k < half ==> TriesFrom(bus, i, start)[k] == TryAt(bus, i, start + 2 * k)
    decreases half
  {
    FourSwapped(bus.model);
    hide Stride, Rewinds;
    if half >= 2 {
      EveryOther(bus, i, start + 2, half - 1, if k > 0 then k - 1 else 0);
    }
  }

  lemma TriesOfOne(bus: Bus, k: nat)
    requires bus.model.swapped && bus.model.ports == 4 && |bus.devices| % 2 == 0
    ensures |Tries([bus])| == |bus.devices| / 2
    ensures 2 * k < |bus.devices| ==> Tries([bus])[k] == TryAt(bus, 0, 2 * k)
  {
    EveryOther(bus, 0, 0, |bus.devices| / 2, k);
    assert [bus][..0] == [];
    assert Tries([]) == [];
  }

  /** The first tries of such a system all find a card. */
  lemma {:induction false} EveryTryWorks(bus: Bus, n: nat, k: nat)
    requires OnlySwapped(bus, n) && k < 2 * n
    ensures |Tries([bus])| == 2 * n
    ensures var accepted := Accepted(Tries([bus])[..k], Always);
      |accepted| == k && forall c | 0 <= c < k :: accepted[c] == c
  {
    hide Tries, Works;
    TriesOfOne(bus, 0);
    if k > 0 {
      EveryTryWorks(bus, n, k - 1);
      TriesOfOne(bus, k - 1);
      FullWorks(Tries([bus])[k - 1]);
      assert Tries([bus])[..k][..k - 1] == Tries([bus])[..k - 1];
    }
  }

  predicate AllNets(buses: seq<Bus>) {
    forall i, x | 0 <= i < |buses| && 0 <= x < |buses[i].devices| :: buses[i].devices[x].net.Some?
  }

  lemma NoneMissing(buses: seq<Bus>, k: nat, answers: Pair -> bool)
    requires AllNets(buses) && k < |Tries(buses)|
    ensures !MissingNet(Tries(buses), k, answers)
  {
    TriesAre(buses);
    var t := Tries(buses)[k];
    hide Leftover, Tries, InOrder;
    assert Belongs(t, buses);
    forall x | 0 <= x < |t.devices|
      ensures t.devices[x].net.Some?
    {
      assert t.devices[x] == buses[t.bus].devices[t.start + x];
    }
  }

  /** Two such cards are taken for three, the one in the middle made of the ends of both, and three or more are
      too many: the scan fails although MAX_CARD are allowed. */
  lemma SwappedCardsMultiply(bus: Bus, n: nat)
    requires OnlySwapped(bus, n)
    ensures var st := Run(Tries([bus]), Always);
      && st.rc == (if n <= 2 then 0 else -E2BIG)
      && (n <= 2 ==> st.maxcard == 2 * n - 1)
  {
    hide Run, Tries, Works, MissingNet;
    var tries, answers := Tries([bus]), Always;
    EveryTryWorks(bus, n, 0);
    forall k | 0 <= k < |tries|
      ensures !MissingNet(tries, k, answers) && (OneTooMany(tries, k, answers) <==> k == MAX_CARD)
    {
      NoneMissing([bus], k, answers);
      EveryTryWorks(bus, n, k);
    }
    ScanSucceedsExactly(tries, answers);
    if n <= 2 {
      ScanFindsTheCards(tries, answers);
      EveryTryWorks(bus, n, 2 * n - 1);
      OneMoreTry(tries, 2 * n - 1, answers);
      TriesOfOne(bus, 2 * n - 1);
      assert !Full(tries[2 * n - 1]);
      WorksOnlyFull(tries[2 * n - 1], answers);
      assert tries[..2 * n] == tries;
    } else {
      assert OneTooMany(tries, MAX_CARD, answers);
      var k :| 0 <= k < |tries| && FailsAt(tries, k, answers, Run(tries, answers).rc);
      assert OneTooMany(tries, k, answers);
    }
  }

  lemma WorksOnlyFull(t: Try, answers: Pair -> bool)
    requires !Full(t)
    ensures !Works(t, answers)
  {
  }

  /** The slots of the three cards that two are taken for. */
  lemma TwoSwappedCards(bus: Bus, c: nat, p: nat)
    requires OnlySwapped(bus, 2) && c < 3 && p < 4
    ensures Run(Tries([bus]), Always).slots[c].pci[p] == bus.devices[2 * c + [2, 3, 0, 1][p]].pci
  {
    hide Run, Tries, Works, Seat, Rewinds, Stride;
    var tries := Tries([bus]);
    SwappedCardsMultiply(bus, 2);
    ScanFindsTheCards(tries, Always);
    EveryTryWorks(bus, 2, 3);
    TriesOfOne(bus, c);
    FourSwapped(bus.model);
    AcceptedGoesOn(tries, 3, Always);
    assert HoldsDevice(Run(tries, Always).slots[c], p, tries[c].devices[Seat(bus.model, p)]);
  }

  lemma AcceptedGoesOn(tries: seq<Try>, k: nat, answers: Pair -> bool)
    requires k + 1 == |tries|
    ensures Accepted(tries[..k], answers) <= Accepted(tries, answers)
  {
  }

  function Functions(from: int, n: nat): (r: seq<Device>)
    ensures |r| == n && forall x | 0 <= x < n :: r[x] == Device(from + x, Some(from + x))
  {
    seq(n, x requires 0 <= x < n => Device(from + x, Some(from + x)))
  }

  /** Three two-port cards and then, in fourth and last place, one with swapped segments. */
  function SwappedLast(): seq<Bus> {
    [Bus(Entry(2, Flash, false), Functions(0, 6)), Bus(Entry(4, Sdp, true), Functions(6, 4))]
  }

  lemma TriesOfSwappedLast()
    ensures var tries := Tries(SwappedLast());
      && |tries| == 5 && tries[3] == TryAt(SwappedLast()[1], 1, 0)
      && forall k | 0 <= k < 4 :: Full(tries[k]) && tries[k].model.ports >= 2 && !tries[k].model.side.Unknown?
  {
    var buses := SwappedLast();
    var a, b := buses[0], buses[1];
    assert buses[..1] == [a] && [a][..0] == [];
    EveryOther(b, 1, 0, 2, 0);
    PairsOf(a, 0, 0, 3, 0);
    PairsOf(a, 0, 0, 3, 1);
    PairsOf(a, 0, 0, 3, 2);
    hide TriesFrom;
    assert Tries([]) == [];
    assert Tries([a]) == TriesFrom(a, 0, 0);
    assert Tries(buses) == Tries([a]) + TriesFrom(b, 1, 0);
  }

  /** Two-port cards are tried one after the other. */
  lemma {:induction false} PairsOf(bus: Bus, i: nat, start: nat, n: nat, k: nat)
    requires bus.model.ports == 2 && |bus.devices| == start + 2 * n
    ensures |TriesFrom(bus, i, start)| == n
    ensures k < n ==> TriesFrom(bus, i, start)[k] == TryAt(bus, i, start + 2 * k)
    decreases n
  {
    assert Stride(bus.model) == 2;
    hide Stride;
    if n > 0 {
      PairsOf(bus, i, start + 2, n - 1, if k > 0 then k - 1 else 0);
    }
  }

  /** The scan of that system fails, although it has four cards and no function after them. */
  lemma SwappedLastFails()
    ensures Run(Tries(SwappedLast()), Always).rc == -E2BIG
    ensures !Sequel(SwappedLast(), Tries(SwappedLast())[3])
  {
    var tries := Tries(SwappedLast());
    TriesOfSwappedLast();
    hide Run, Tries, Works, Leftover;
    NoneAccepted(tries, Always);
    forall k | 0 <= k < 4
      ensures Works(tries[k], Always) && !MissingNet(tries, k, Always)
    {
      FullWorks(tries[k]);
      NoneMissing(SwappedLast(), k, Always);
    }
    OneMoreTry(tries, 0, Always);
    OneMoreTry(tries, 1, Always);
    OneMoreTry(tries, 2, Always);
    OneMoreTry(tries, 3, Always);
    assert Fourth(tries, 3, Always);
    FourSwapped(tries[3].model);
    TooManyExactly(SwappedLast(), Always);
  }

  /** Two two-port cards, the second one without network devices. */
  predicate SecondLacksNet(bus: Bus) {
    && bus.model == Entry(2, Flash, false) && |bus.devices| == 4
    && bus.devices[0].net.Some? && bus.devices[1].net.Some? && bus.devices[2].net.None? && bus.devices[3].net.None?
  }

  /** After a rejected card missing network devices go unnoticed: if only the CPLD of the second card answers, that
      card is accepted with the network devices of the first one. */
  lemma RejectedCardLeavesNetDevice(bus: Bus, answers: Pair -> bool)
    requires SecondLacksNet(bus)
    requires !Works(TryAt(bus, 0, 0), answers) && Works(TryAt(bus, 0, 2), answers)
    ensures var st := Run(Tries([bus]), answers);
      && st.rc == 0 && st.maxcard == 1
      && forall p | 0 <= p < 2 ::
           st.slots[0].pci[p] == bus.devices[2 + p].pci && st.slots[0].net[p] == bus.devices[p].net
  {
    var a, b := TryAt(bus, 0, 0), TryAt(bus, 0, 2);
    TwoTries(bus);
    TwoRoundsHold(BLANK, a.devices);
    TwoRoundsHold(TwoRounds(BLANK, a.devices), b.devices);
    assert a.devices == bus.devices[0..2] && b.devices == bus.devices[2..4];
    hide Tackle, Works, Tries, TryAt, TwoRounds;
    TwoPortCard(START, a, answers);
    RunAdds([], a, answers);
    RunAdds([a], b, answers);
    assert [] + [a] == [a] && [a] + [b] == [a, b];
    TwoPortCard(Run([a], answers), b, answers);
  }

  lemma TwoTries(bus: Bus)
    requires bus.model == Entry(2, Flash, false) && |bus.devices| == 4
    ensures Tries([bus]) == [TryAt(bus, 0, 0), TryAt(bus, 0, 2)]
  {
    PairsOf(bus, 0, 0, 2, 0);
    PairsOf(bus, 0, 0, 2, 1);
    hide TriesFrom;
    assert [bus][..0] == [] && Tries([]) == [];
  }

  /** A slot after a finished card of two ports. */
  function TwoRounds(slot: Slot, devices: seq<Device>): Slot
    requires |devices| == 2
  {
    Placed(Placed(slot, 0, devices[0]), 1, devices[1]).(model := Entry(2, Flash, false))
  }

  lemma TwoRoundsHold(slot: Slot, devices: seq<Device>)
    requires |devices| == 2
    ensures var r := TwoRounds(slot, devices);
      && r.pci[0] == devices[0].pci && r.pci[1] == devices[1].pci
      && r.net[0] == (if devices[0].net.Some? then devices[0].net else slot.net[0])
      && r.net[1] == (if devices[1].net.Some? then devices[1].net else slot.net[1])
  {
  }

  lemma TwoPortCard(st: Scan, t: Try, answers: Pair -> bool)
    requires st.Sound() && st.rc == 0 && st.maxcard < MAX_CARD && t.model == Entry(2, Flash, false) && Full(t)
    requires var slot := TwoRounds(st.slots[st.maxcard], t.devices); slot.net[0].Some? && slot.net[1].Some?
    ensures var slot := TwoRounds(st.slots[st.maxcard], t.devices);
      Tackle(st, t, answers) == st.(model := t.model, port := 0, slots := st.slots[st.maxcard := slot],
                                    maxcard := if Works(t, answers) then st.maxcard + 1 else st.maxcard)
  {
    hide CardResponds;
    var slot := TwoRounds(st.slots[st.maxcard], t.devices);
    var open := Placed(Placed(st.slots[st.maxcard], 0, t.devices[0]), 1, t.devices[1]);
    assert Arranged(t.model, open).pci == open.pci && Arranged(t.model, open).net == open.net;
    assert Arranged(t.model, open) == slot;
    assert slot.pci[..2] == PciOf(t);
    var st0 := st.(model := t.model, port := 0);
    assert t.devices[..1][..0] == [] && t.devices[..1][0] == t.devices[0];
    assert Series(st0, [], answers) == st0;
    assert Series(st0, t.devices[..1], answers) == Step(st0, t.devices[0], answers);
  }

  class Driver {
    const answers: Pair -> bool
    var cards: seq<Slot>
    var maxcard: nat
    var control: seq<Pair>

    constructor (answers: Pair -> bool)
      ensures this.answers == answers && cards == START.slots && maxcard == 0 && |control| == MAX_CARD
    {
      this.answers := answers;
      cards := START.slots;
      maxcard := 0;
      var none := Pair(Address(0), Address(0));
      control := [none, none, none, none];
    }

    /** validate_ports: whether the CPLD answers through the pair it leaves in hw_ctrl. */
    method ValidatePorts(hw: nat, pair: Pair) returns (ok: bool)
      requires hw < |control|
      modifies this`control
      ensures control == old(control)[hw := pair]
      ensures ok == answers(pair)
    {
      control := control[hw := pair];
      ok := answers(control[hw]);
    }

    /** What cpld_validate does at one port. */
    method ValidateAt(hw: nat, i: nat) returns (ok: bool)
      requires hw < |cards| && |control| == |cards| && i < cards[hw].model.ports
      modifies this`control
      ensures
        var tried := TriedAt(cards[hw].model.side, cards[hw].pci[..cards[hw].model.ports], i);
        && ok == Responds(tried, answers)
        && control == old(control)[hw := Chosen(tried, answers, old(control)[hw])]
    {
      ok := false;
      var pci := cards[hw].pci;
      match cards[hw].model.side {
        case Unknown =>
        case Flash =>
          ok := ValidatePorts(hw, Pair(Window(pci[i], 0), Window(pci[i], 2)));
        case Mdio =>
          ok := ValidatePorts(hw, Pair(Window(pci[i], 0), Address(0x01)));
          if !ok {
            ok := ValidatePorts(hw, Pair(Window(pci[i], 0), Address(0x1E)));
          }
        case _ =>
          if i % 2 != 0 {
            ok := ValidatePorts(hw, Pair(Window(pci[i - 1], 0), Window(pci[i], 0)));
            if !ok {
              ok := ValidatePorts(hw, Pair(Window(pci[i], 0), Window(pci[i - 1], 0)));
            }
          }
      }
      TwoTried(TriedAt(cards[hw].model.side, pci[..cards[hw].model.ports], i), answers, old(control)[hw]);
    }

    /** cpld_validate. */
    method Validate(hw: nat) returns (rc: int)
      requires hw < |cards| && |control| == |cards|
      modifies this`control
      ensures
        var model := cards[hw].model;
        var pci := cards[hw].pci[..model.ports];
        && rc == (if model.side.Unknown? then -1 else if CardResponds(model, pci, answers) then 0 else 1)
        && control == old(control)[hw := Chosen(Tried(model.side, pci, model.ports), answers, old(control)[hw])]
    {
      hide TriedAt, Chosen, Responds;
      var side, ports := cards[hw].model.side, cards[hw].model.ports;
      ghost var pci, before := cards[hw].pci[..ports], control[hw];
      NothingChosen(answers, before);
      if side.Unknown? {
        NothingTried(pci, ports);
        return -1;
      }
      for i := 0 to ports
        invariant |control| == |cards|
        invariant !Responds(Tried(side, pci, i), answers)
        invariant control == old(control)[hw := Chosen(Tried(side, pci, i), answers, before)]
      {
        ghost var tried, next := Tried(side, pci, i), TriedAt(side, pci, i);
        ChosenGoesOn(tried, next, answers, before);
        TriedPrefix(side, pci, i + 1, ports);
        ChosenGoesOn(tried + next, Tried(side, pci, ports)[|tried + next|..], answers, before);
        assert Tried(side, pci, ports) == tried + next + Tried(side, pci, ports)[|tried + next|..];
        var ok := ValidateAt(hw, i);
        if ok {
          return 0;
        }
      }
      return 1;
    }

    /** A finished card takes its model and, if need be, has its segments swapped in place. The swap uses the
        cursor of the enumeration as its temporary. */
    method Finish(hw: nat, model: Model, pciDev: int) returns (cursor: int)
      requires hw < |cards|
      modifies this`cards
      ensures cards == old(cards)[hw := Arranged(model, old(cards)[hw])]
      ensures cursor == if Rewinds(model) then old(cards)[hw].pci[LastSwapped(model.ports) - 2] else pciDev
    {
      hide SwappedUpTo, Arranged, LastSwapped;
      ghost var was := cards[hw];
      cursor := pciDev;
      cards := cards[hw := cards[hw].(model := model)];
      SwapStart(was, cards[hw], model);
      if model.swapped {
        var portA := 2;
        while portA < model.ports
          invariant |cards| == |old(cards)| && cards == old(cards)[hw := cards[hw]]
          invariant cards[hw].model == model && (portA == 2 || 2 < portA <= model.ports)
          invariant SwappedUpTo(was, cards[hw], model.ports, portA)
          invariant cursor == if portA > 2 then was.pci[LastSwapped(portA) - 2] else pciDev
        {
          ghost var before := cards[hw];
          if portA / 2 % 2 != 0 {
            var portB := portA - 2;
            var netDev := cards[hw].net[portB];
            cards := cards[hw := cards[hw].(net := cards[hw].net[portB := cards[hw].net[portA]])];
            cards := cards[hw := cards[hw].(net := cards[hw].net[portA := netDev])];
            cursor := cards[hw].pci[portB];
            cards := cards[hw := cards[hw].(pci := cards[hw].pci[portB := cards[hw].pci[portA]])];
            cards := cards[hw := cards[hw].(pci := cards[hw].pci[portA := cursor])];
          }
          SwapStep(was, before, cards[hw], model.ports, portA);
          CursorMoves(portA);
          portA := portA + 1;
        }
        SwapDone(was, cards[hw], model, portA);
      }
    }

    /** One round of the inner loop of niagara_init; port is the next port of the unfinished card, and the
        enumeration goes on after cursor. */
    method Place(model: Model, port: nat, d: Device) returns (rc: int, next: nat, cursor: int)
      requires |cards| == MAX_CARD == |control| && Scan(cards, maxcard, port, model, 0).Sound()
      modifies this`cards, this`maxcard, this`control
      ensures |control| == MAX_CARD
      ensures Scan(cards, maxcard, next, model, rc)
        == Step(Scan(old(cards), old(maxcard), port, model, 0), d, answers)
      ensures rc == 0 ==> old(maxcard) < MAX_CARD && next == if port + 1 == model.ports then 0 else port + 1
      ensures rc == 0 ==>
        cursor == if next == 0 && Rewinds(model) then old(cards)[old(maxcard)].pci[LastSwapped(model.ports) - 2]
                  else d.pci
    {
      hide Arranged, CardResponds;
      cursor := d.pci;
      if port == 0 && maxcard >= MAX_CARD {
        return -E2BIG, port, cursor;
      }
      cards := cards[maxcard := cards[maxcard].(pci := cards[maxcard].pci[port := d.pci])];
      if d.net.Some? {
        cards := cards[maxcard := cards[maxcard].(net := cards[maxcard].net[port := d.net])];
      }
      if cards[maxcard].net[port] == None {
        return -ENXIO, port, cursor;
      }
      next := port + 1;
      if next == model.ports {
        ghost var slot := cards[maxcard];
        cursor := Finish(maxcard, model, cursor);
        ArrangedAt(model, slot, 0);
        UnknownIsSilent(model, cards[maxcard].pci[..model.ports], answers);
        rc := Validate(maxcard);
        if rc == 0 {
          maxcard := maxcard + 1;
        }
        next := 0;
      }
      rc := 0;
    }

    /** The inner loop of niagara_init, for one table entry. */
    method Enumerate(bus: Bus, ghost i: nat, ghost done: seq<Try>) returns (rc: int)
      requires |cards| == MAX_CARD == |control| && Distinct(bus.devices)
      requires var st := Run(done, answers); st.slots == cards && st.maxcard == maxcard && st.rc == 0
      modifies this`cards, this`maxcard, this`control
      ensures |control| == MAX_CARD
      ensures var st := Run(done + TriesFrom(bus, i, 0), answers);
        st.slots == cards && st.maxcard == maxcard && st.rc == rc
    {
      hide Step, Run, Amid, TriesFrom, Following, Distinct;
      var model, port: nat, pciDev: Option<int> := bus.model, 0, None;
      ghost var start: nat, tries := 0, done;
      AmidNothing(bus, start, tries, answers);
      while true
        invariant |control| == MAX_CARD && port < model.ports && start + port <= |bus.devices|
        invariant tries + TriesFrom(bus, i, start) == done + TriesFrom(bus, i, 0) && Run(tries, answers).rc == 0
        invariant Scan(cards, maxcard, port, model, 0) == Amid(bus, start, port, tries, answers)
        invariant pciDev == if start + port == 0 then None else Some(bus.devices[start + port - 1].pci)
        decreases |bus.devices| - start, model.ports - port
      {
        NextFunction(bus.devices, start + port);
        var found := Following(bus.devices, pciDev);
        if found.None? {
          break;
        }
        OneRound(bus, start, port, tries, answers);
        if port + 1 == model.ports && Rewinds(model) {
          CursorIsInside(bus, start, port, LastSwapped(model.ports) - 2, tries, answers);
        }
        ghost var open := port;
        var cursor;
        rc, port, cursor := Place(model, port, found.value);
        if rc != 0 {
          RoundFails(bus, i, start, open, tries, answers);
          return;
        }
        pciDev := Some(cursor);
        if port == 0 {
          RoundFinishes(bus, i, start, tries, answers);
          start, tries := start + Stride(model), tries + [TryAt(bus, i, start)];
          AmidNothing(bus, start, tries, answers);
        }
      }
      LastRound(bus, i, start, port, tries, answers);
      rc := 0;
    }

    /** The scan of niagara_init. */
    method Init(buses: seq<Bus>) returns (rc: int)
      requires cards == START.slots && maxcard == 0 && |control| == MAX_CARD
      requires forall bus :: bus in buses ==> Distinct(bus.devices)
      modifies this`cards, this`maxcard, this`control
      ensures
        var st := Run(Tries(buses), answers);
        && cards == st.slots && maxcard == st.maxcard
        && rc == if st.rc != 0 then st.rc else if maxcard == 0 then -6 else 0
    {
      hide Run, TriesFrom, Distinct;
      NothingTackled(answers);
      for i := 0 to |buses|
        invariant |control| == MAX_CARD
        invariant var st := Run(Tries(buses[..i]), answers);
          st.slots == cards && st.maxcard == maxcard && st.rc == 0
      {
        assert buses[i] in buses && buses[..i + 1][..i] == buses[..i];
        rc := Enumerate(buses[i], i, Tries(buses[..i]));
        if rc != 0 {
          TriesGoOn(buses, i + 1);
          assert Tries(buses) == Tries(buses[..i + 1]) + Tries(buses)[|Tries(buses[..i + 1])|..];
          FailureIsFinal(Tries(buses[..i + 1]), Tries(buses)[|Tries(buses[..i + 1])|..], answers);
          return;
        }
      }
      assert buses[..|buses|] == buses;
      rc := if maxcard == 0 then -ENXIO else 0;
    }
  }

  lemma AmidNothing(bus: Bus, start: nat, tries: seq<Try>, answers: Pair -> bool)
    requires start <= |bus.devices|
    ensures Amid(bus, start, 0, tries, answers) == Run(tries, answers).(model := bus.model, port := 0)
  {
    assert bus.devices[start..start + 0] == [];
  }

  lemma NextFunction(devices: seq<Device>, k: nat)
    requires Distinct(devices) && k <= |devices|
    ensures Following(devices, if k == 0 then None else Some(devices[k - 1].pci))
         == if k < |devices| then Some(devices[k]) else None
  {
    if k > 0 {
      FollowingIsNext(devices, k - 1);
    }
  }

  lemma NothingTackled(answers: Pair -> bool)
    ensures Run([], answers) == START
  {
  }

  /** The scan after some functions of a table entry, the last ones of them for an unfinished card. */
  function Amid(bus: Bus, start: nat, port: nat, tries: seq<Try>, answers: Pair -> bool): (r: Scan)
    requires start + port <= |bus.devices|
    ensures r.Sound()
  {
    Series(Run(tries, answers).(model := bus.model, port := 0), bus.devices[start..start + port], answers)
  }

  /** One more function, at whichever port it comes. */
  lemma OneRound(bus: Bus, start: nat, port: nat, tries: seq<Try>, answers: Pair -> bool)
    requires start + port < |bus.devices|
    ensures Amid(bus, start, port + 1, tries, answers)
         == Step(Amid(bus, start, port, tries, answers), bus.devices[start + port], answers)
  {
    hide Step, Run;
    assert bus.devices[start..start + port + 1] == bus.devices[start..start + port] + [bus.devices[start + port]];
    SeriesAdds(Run(tries, answers).(model := bus.model, port := 0), bus.devices[start..start + port],
               bus.devices[start + port], answers);
  }

  lemma RoundFails(bus: Bus, i: nat, start: nat, port: nat, tries: seq<Try>, answers: Pair -> bool)
    requires port < bus.model.ports && start + port < |bus.devices| && Run(tries, answers).rc == 0
    requires Amid(bus, start, port + 1, tries, answers).rc != 0
    ensures Run(tries + TriesFrom(bus, i, start), answers) == Amid(bus, start, port + 1, tries, answers)
  {
    hide Run, Series, Stride;
    var t, all := TryAt(bus, i, start), TriesFrom(bus, i, start);
    RunAdds(tries, t, answers);
    var st0 := Run(tries, answers).(model := bus.model, port := 0);
    assert t.devices == bus.devices[start..start + port + 1] + t.devices[port + 1..];
    SeriesStaysFailed(st0, bus.devices[start..start + port + 1], t.devices[port + 1..], answers);
    assert tries + all == (tries + [t]) + all[1..];
    FailureIsFinal(tries + [t], all[1..], answers);
  }

  lemma RoundFinishes(bus: Bus, i: nat, start: nat, tries: seq<Try>, answers: Pair -> bool)
    requires start + bus.model.ports <= |bus.devices| && Run(tries, answers).rc == 0
    ensures start + Stride(bus.model) <= |bus.devices|
    ensures Amid(bus, start, bus.model.ports, tries, answers) == Run(tries + [TryAt(bus, i, start)], answers)
    ensures tries + TriesFrom(bus, i, start)
         == tries + [TryAt(bus, i, start)] + TriesFrom(bus, i, start + Stride(bus.model))
  {
    hide Run, Series, Stride;
    RunAdds(tries, TryAt(bus, i, start), answers);
  }

  /** The unfinished card holds its functions, so the swap puts the cursor on one of them. */
  lemma CursorIsInside(bus: Bus, start: nat, port: nat, p: nat, tries: seq<Try>, answers: Pair -> bool)
    requires p < port < bus.model.ports && start + port <= |bus.devices| && Run(tries, answers).rc == 0
    requires Amid(bus, start, port, tries, answers).rc == 0
    ensures var st := Amid(bus, start, port, tries, answers);
      st.maxcard < MAX_CARD && st.slots[st.maxcard].pci[p] == bus.devices[start + p].pci
  {
    hide Run, Series, Filled, Leftover, Inv;
    var st, left := Run(tries, answers), Leftover(tries, answers);
    ScanFindsTheCards(tries, answers);
    SamePlaces(st, bus.model, left);
    var devices := bus.devices[start..start + port];
    SeriesIsOpen(st.(model := bus.model, port := 0), devices, left, answers);
    assert HoldsDevice(Amid(bus, start, port, tries, answers).slots[st.maxcard], p, devices[p]);
  }

  lemma LastRound(bus: Bus, i: nat, start: nat, port: nat, tries: seq<Try>, answers: Pair -> bool)
    requires port < bus.model.ports && start + port == |bus.devices| && Run(tries, answers).rc == 0
    requires Amid(bus, start, port, tries, answers).rc == 0
    ensures
      var st, r := Amid(bus, start, port, tries, answers), Run(tries + TriesFrom(bus, i, start), answers);
      r.slots == st.slots && r.maxcard == st.maxcard && r.rc == 0
  {
    hide Run, Step, Stride;
    if port == 0 {
      assert tries + TriesFrom(bus, i, start) == tries;
    } else {
      RunAdds(tries, TryAt(bus, i, start), answers);
    }
  }

  lemma {:induction false} TriesGoOn(buses: seq<Bus>, i: nat)
    requires i <= |buses|
    ensures Tries(buses[..i]) <= Tries(buses)
    decreases |buses|
  {
    if i < |buses| {
      var last := |buses| - 1;
      assert buses[..last][..i] == buses[..i];
      TriesGoOn(buses[..last], i);
    } else {
      assert buses[..i] == buses;
    }
  }

  lemma UnknownIsSilent(model: Model, pci: seq<int>, answers: Pair -> bool)
    requires |pci| == model.ports
    ensures model.side.Unknown? ==> !CardResponds(model, pci, answers)
  {
    if model.side.Unknown? {
      NothingTried(pci, model.ports);
    }
  }

  /** A port whose swap is behind portA holds what its twin held. */
  predicate SwappedUpTo(was: Slot, now: Slot, ports: int, portA: int) {
    forall p | 0 <= p < MAX_PORT_PER_CARD ::
      var q := if p < ports && p < portA && Twin(ports, p) < portA then Twin(ports, p) else p;
      q < MAX_PORT_PER_CARD && now.pci[p] == was.pci[q] && now.net[p] == was.net[q]
  }

  lemma SwapStart(was: Slot, now: Slot, model: Model)
    requires now == was.(model := model)
    ensures SwappedUpTo(was, now, model.ports, 2)
    ensures !model.swapped ==> now == Arranged(model, was)
  {
    if !model.swapped {
      assert now.pci == Arranged(model, was).pci;
      assert now.net == Arranged(model, was).net;
    }
  }

  lemma SwapStep(was: Slot, before: Slot, after: Slot, ports: int, portA: int)
    requires 2 <= portA < ports <= MAX_PORT_PER_CARD && SwappedUpTo(was, before, ports, portA)
    requires before.model == after.model
    ensures portA / 2 % 2 != 0 ==> before.pci[portA - 2] == was.pci[portA - 2]
    requires
      if portA / 2 % 2 != 0
      then
        && after.pci == before.pci[portA - 2 := before.pci[portA]][portA := before.pci[portA - 2]]
        && after.net == before.net[portA - 2 := before.net[portA]][portA := before.net[portA - 2]]
      else after == before
    ensures SwappedUpTo(was, after, ports, portA + 1)
  {
    assert portA / 2 % 2 != 0 ==> Twin(ports, portA - 2) == portA;
    assert before.pci[portA] == was.pci[portA] && before.net[portA] == was.net[portA];
    assert portA / 2 % 2 != 0 ==>
      before.pci[portA - 2] == was.pci[portA - 2] && before.net[portA - 2] == was.net[portA - 2];
  }

  lemma CursorMoves(portA: int)
    requires portA >= 2
    ensures LastSwapped(portA + 1) == if portA / 2 % 2 != 0 then portA else LastSwapped(portA)
    ensures portA == 2 ==> portA / 2 % 2 != 0
  {
  }

  lemma SwapDone(was: Slot, now: Slot, model: Model, portA: int)
    requires model.swapped && model.ports <= portA && now.model == model && SwappedUpTo(was, now, model.ports, portA)
    ensures now == Arranged(model, was)
  {
    assert now.pci == Arranged(model, was).pci;
    assert now.net == Arranged(model, was).net;
  }

  lemma NothingChosen(answers: Pair -> bool, before: Pair)
    ensures !Responds([], answers) && Chosen([], answers, before) == before
  {
  }

  lemma TwoTried(tried: seq<Pair>, answers: Pair -> bool, before: Pair)
    requires |tried| <= 2
    ensures Responds(tried, answers) == ((|tried| > 0 && answers(tried[0])) || (|tried| > 1 && answers(tried[1])))
    ensures Chosen(tried, answers, before) ==
      if |tried| == 0 then before else if |tried| == 1 || answers(tried[0]) then tried[0] else tried[1]
  {
    if |tried| > 1 {
      assert Chosen(tried[1..], answers, tried[0]) == tried[1];
    }
  }

  lemma {:induction false} NothingTried(devices: seq<int>, ports: nat)
    requires ports <= |devices|
    ensures Tried(Unknown, devices, ports) == []
  {
    if ports > 0 {
      NothingTried(devices, ports - 1);
    }
  }
}
