/** Segment attributes and fiber port commands, module/api.c and module/port.c: overlapping bit fields
    in one bank of CPU registers that behave like independent variables. */
module Attributes {
  import opened CpldDevice
  import FunctionTable
  import Host

  datatype Attribute = CurrentMode | DefaultMode | TimeoutScaler | PowerOffMode

  type Segment = n: int | 0 <= n < 4

  type PortNumber = n: int | n == 0 || n == 1

  /** The register tables of module/api.c:8-37 with the numbers of module/cpu.h. */
  function Cell(fiber: bool, a: Attribute, s: Segment): int {
    match a
    case CurrentMode => [49, 55, 37, 43][s]
    case DefaultMode => if fiber then [48, 54, 36, 42][s] else [50, 56, 38, 44][s]
    case TimeoutScaler => s
    case PowerOffMode => [51, 57, 39, 45][s]
  }

  lemma CellsAreDisjoint(fiber: bool, a: Attribute, s: Segment, b: Attribute, t: Segment)
    requires Cell(fiber, a, s) == Cell(fiber, b, t)
    ensures a == b && s == t
  {
  }

  /** The six registers of a segment follow one another: fiber default, current mode, copper default, power-off. */
  lemma SegmentsAreBlocks(s: Segment)
    ensures var base := if s < 2 then 48 + 6 * s else 24 + 6 * s;
      && Cell(true, DefaultMode, s) == base && Cell(false, DefaultMode, s) == base + 2
      && forall fiber :: Cell(fiber, CurrentMode, s) == base + 1 && Cell(fiber, PowerOffMode, s) == base + 3
                         && Cell(fiber, TimeoutScaler, s) == s
  {
  }

  const EINVAL := 22

  function Low(value: bv32): bv8 {
    (value & 0xFF) as bv8
  }

  function Wide(byte: bv8): bv32 {
    byte as bv32
  }

  lemma LowWide(byte: bv8)
    ensures Low(Wide(byte)) == byte
  {
  }

  /** bad_current_mode and bad_default_mode see the value as an unsigned char; set_power_off_mode does not. */
  predicate Accepted(a: Attribute, value: bv32) {
    match a
    case CurrentMode => Low(value) == 0x70 || Low(value) <= 5
    case DefaultMode => Low(value) <= 5
    case TimeoutScaler => true
    case PowerOffMode => value == 0 || value == 1
  }

  /** The checks on the whole value: two look at its low byte only. */
  lemma AcceptedExactly(a: Attribute, value: bv32)
    ensures Accepted(a, value) <==>
      match a
      case CurrentMode => value & 0xFF < 6 || value & 0xFF == 0x70
      case DefaultMode => value & 0xFF < 6
      case TimeoutScaler => true
      case PowerOffMode => value < 2
  {
  }

  /** The byte a setter leaves in the attribute's register. */
  function Encoded(fiber: bool, a: Attribute, byte: bv8, value: bv32): bv8 {
    match a
    case CurrentMode =>
      if fiber then Low((if value != 0x70 then (value << 3) | (Wide(byte) & 3) else value) | 0x80) else Low(value)
    case DefaultMode => if fiber then Low(0x83 | (value << 3)) else Low(value)
    case TimeoutScaler => Low(value)
    case PowerOffMode =>
      var bit: bv8 := if fiber then 0x10 else 0x01;
      if value != 0 then byte | bit else byte & !bit
  }

  /** What a getter makes of the byte. */
  function Decoded(fiber: bool, a: Attribute, byte: bv8): bv32 {
    match a
    case CurrentMode =>
      if fiber then var v := byte & 0x7F; Wide(if v != 0x70 then v >> 3 else v) else Wide(byte)
    case DefaultMode => if fiber then Wide((byte & 0x7F) >> 3) else Wide(byte)
    case TimeoutScaler => Wide(byte)
    case PowerOffMode => Wide(if fiber then (byte >> 4) & 1 else byte & 1)
  }

  /** What a setter leaves of the register, field by field: a fiber current mode has bit 7 set, the value from bit 3
      up and the two port enables as they were, but 0x70 takes the whole rest; a fiber default mode
      has bit 7 and both enables set; copper modes and the scaler take the byte. */
  lemma FieldsWritten(byte: bv8, value: bv32)
    requires value < 0x100
    ensures Accepted(CurrentMode, value) ==>
      && Encoded(false, CurrentMode, byte, value) == Low(value)
      && var r := Encoded(true, CurrentMode, byte, value);
         if value == 0x70 then r == 0xF0
         else r & 0x80 == 0x80 && (r & 0x7F) >> 3 == Low(value) && r & 0x04 == 0 && r & 0x03 == byte & 0x03
    ensures Accepted(DefaultMode, value) ==>
      && Encoded(false, DefaultMode, byte, value) == Low(value)
      && var r := Encoded(true, DefaultMode, byte, value);
         r & 0x80 == 0x80 && (r & 0x7F) >> 3 == Low(value) && r & 0x07 == 0x03
    ensures Encoded(false, TimeoutScaler, byte, value) == Encoded(true, TimeoutScaler, byte, value) == Low(value)
  {
  }

  /** What wider values that are accepted leave of the register. */
  lemma WideValuesWritten(byte: bv8, value: bv32)
    requires value >= 0x100
    ensures Accepted(CurrentMode, value) ==>
      Encoded(true, CurrentMode, byte, value) ==
        if Low(value) == 0x70 then 0x80 | (byte & 0x03) else 0x80 | (Low(value) << 3) | (byte & 0x03)
    ensures Accepted(DefaultMode, value) ==> Encoded(true, DefaultMode, byte, value) == 0x83 | (Low(value) << 3)
    ensures forall a | a != PowerOffMode :: Encoded(false, a, byte, value) == Low(value)
  {
  }

  /** The power-off mode is one bit of its register: set or cleared as asked, and the other seven stay. */
  lemma PowerBitExactly(fiber: bool, byte: bv8, value: bv32)
    requires Accepted(PowerOffMode, value)
    ensures var r := Encoded(fiber, PowerOffMode, byte, value);
      if fiber then r & 0xEF == byte & 0xEF && (r & 0x10 == 0x10 <==> value == 1)
      else r & 0xFE == byte & 0xFE && (r & 0x01 == 0x01 <==> value == 1)
  {
  }

  /** What the getters make of any byte: four bits of a fiber mode register, or the special mode, or all of it. */
  lemma BytesRead(fiber: bool, byte: bv8)
    ensures Decoded(fiber, CurrentMode, byte) ==
      if !fiber then byte as bv32 else if byte == 0x70 || byte == 0xF0 then 0x70 else (byte as bv32 >> 3) & 0x0F
    ensures Decoded(fiber, DefaultMode, byte) == if fiber then (byte as bv32 >> 3) & 0x0F else byte as bv32
    ensures Decoded(fiber, TimeoutScaler, byte) == byte as bv32
    ensures Decoded(fiber, PowerOffMode, byte) == if byte & (if fiber then 0x10 else 0x01) != 0 then 1 else 0
  {
  }

  predicate Fits(value: bv32) {
    value < 0x100
  }

  predicate RoundTrips(fiber: bool, a: Attribute, byte: bv8, value: bv32) {
    Decoded(fiber, a, Encoded(fiber, a, byte, value)) == value <==> Fits(value)
  }

  lemma FiberCurrentModeRoundTrip(byte: bv8, value: bv32)
    requires Accepted(CurrentMode, value)
    ensures RoundTrips(true, CurrentMode, byte, value)
  {
  }

  lemma FiberDefaultModeRoundTrip(byte: bv8, value: bv32)
    requires Accepted(DefaultMode, value)
    ensures RoundTrips(true, DefaultMode, byte, value)
  {
  }

  lemma PlainRoundTrip(value: bv32)
    ensures Wide(Low(value)) == value <==> Fits(value)
  {
  }

  lemma PowerOffModeRoundTrip(fiber: bool, byte: bv8, value: bv32)
    requires Accepted(PowerOffMode, value)
    ensures RoundTrips(fiber, PowerOffMode, byte, value)
  {
  }

  /** An accepted value comes back exactly if it fits in a byte, whatever the register held before. */
  lemma EncodingRoundTrip(fiber: bool, a: Attribute, byte: bv8, value: bv32)
    requires Accepted(a, value)
    ensures Decoded(fiber, a, Encoded(fiber, a, byte, value)) == value <==> Fits(value)
  {
    hide Low, Wide, Fits, Accepted;
    match a
    case CurrentMode =>
      if fiber {
        FiberCurrentModeRoundTrip(byte, value);
      } else {
        PlainRoundTrip(value);
      }
    case DefaultMode =>
      if fiber {
        FiberDefaultModeRoundTrip(byte, value);
      } else {
        PlainRoundTrip(value);
      }
    case TimeoutScaler => PlainRoundTrip(value);
    case PowerOffMode => PowerOffModeRoundTrip(fiber, byte, value);
  }

  // Fiber ports.

  /** The port number after the swap of cards with swapped control registers. */
  function Line(swapped: bool, port: PortNumber): PortNumber {
    if swapped then 1 - port else port
  }

  /** 1 << line. */
  function Bit(line: PortNumber): bv8 {
    if line == 0 then 1 else 2
  }

  function WithBit(byte: bv8, line: PortNumber, up: bool): bv8 {
    if up then byte | Bit(line) else byte & !Bit(line)
  }

  predicate HasBit(byte: bv8, line: PortNumber) {
    byte & Bit(line) != 0
  }

  /** The port enables that count are those of the default mode register unless the upper half of the
      current mode register is empty. */
  predicate UsesDefault(current: bv8) {
    current & 0xF0 != 0
  }

  lemma PortBitIsSeparate(byte: bv8, line: PortNumber, up: bool)
    ensures var r := WithBit(byte, line, up);
      && HasBit(r, line) == up && HasBit(r, 1 - line) == HasBit(byte, 1 - line)
      && r & 0xFC == byte & 0xFC
      && UsesDefault(r) == UsesDefault(byte)
      && Decoded(true, DefaultMode, r) == Decoded(true, DefaultMode, byte)
      && (!UsesDefault(byte) ==> Decoded(true, CurrentMode, r) == Decoded(true, CurrentMode, byte))
  {
  }

  /** Setting the current mode of a fiber segment always puts the default mode register in charge of the
      port enables and keeps the enables of its own register, unless the mode is 0x70; setting the
      default mode enables both ports there. */
  lemma ModesAndEnables(byte: bv8, value: bv32, line: PortNumber)
    ensures Accepted(CurrentMode, value) ==>
      var r := Encoded(true, CurrentMode, byte, value);
      UsesDefault(r) && HasBit(r, line) == (HasBit(byte, line) && value != 0x70)
    ensures HasBit(Encoded(true, DefaultMode, byte, value), line)
  {
  }

  // Runs.

  datatype Command =
    | Set(attr: Attribute, segment: Segment, value: bv32)
    | PortSet(segment: Segment, port: PortNumber, up: bool)

  function Byte(fiber: bool, m: Memory, a: Attribute, s: Segment): bv8 {
    Reg(m, Cell(fiber, a, s))
  }

  function Reading(fiber: bool, m: Memory, a: Attribute, s: Segment): bv32 {
    Decoded(fiber, a, Byte(fiber, m, a, s))
  }

  /** The registers after a setter that was given an accepted value. */
  function Stored(fiber: bool, m: Memory, a: Attribute, s: Segment, value: bv32): Memory {
    m[Cell(fiber, a, s) := Encoded(fiber, a, Byte(fiber, m, a, s), value)]
  }

  /** The registers after fiber_port_set. */
  function PortCommanded(m: Memory, s: Segment, line: PortNumber, up: bool): Memory {
    var current := Byte(true, m, CurrentMode, s);
    if UsesDefault(current)
    then
      m[Cell(true, DefaultMode, s) := WithBit(Byte(true, m, DefaultMode, s), line, up)]
       [Cell(true, CurrentMode, s) := current]
    else m[Cell(true, CurrentMode, s) := WithBit(current, line, up)]
  }

  function Apply(fiber: bool, swapped: bool, m: Memory, c: Command): Memory
  {
    match c
    case Set(a, s, value) => if Accepted(a, value) then Stored(fiber, m, a, s, value) else m
    case PortSet(s, port, up) => if fiber then PortCommanded(m, s, Line(swapped, port), up) else m
  }

  function Run(fiber: bool, swapped: bool, m: Memory, commands: seq<Command>): Memory
    decreases |commands|
  {
    if commands == [] then m
    else Apply(fiber, swapped, Run(fiber, swapped, m, commands[..|commands| - 1]), commands[|commands| - 1])
  }

  /** The last accepted value a run gave the attribute of the segment. */
  function LastSet(commands: seq<Command>, a: Attribute, s: Segment, initial: bv32): bv32
    decreases |commands|
  {
    if commands == [] then initial
    else
      var c := commands[|commands| - 1];
      if c.Set? && c.attr == a && c.segment == s && Accepted(a, c.value) then c.value
      else LastSet(commands[..|commands| - 1], a, s, initial)
  }

  lemma ByteAfterSet(fiber: bool, m: Memory, a: Attribute, s: Segment, value: bv32, b: Attribute, t: Segment)
    ensures Byte(fiber, Stored(fiber, m, a, s, value), b, t) ==
              if a == b && s == t then Encoded(fiber, a, Byte(fiber, m, a, s), value) else Byte(fiber, m, b, t)
  {
    hide Cell, Encoded;
    if Cell(fiber, a, s) == Cell(fiber, b, t) {
      CellsAreDisjoint(fiber, a, s, b, t);
    }
  }

  lemma ByteAfterPort(m: Memory, s: Segment, line: PortNumber, up: bool, b: Attribute, t: Segment)
    ensures var current := Byte(true, m, CurrentMode, s);
      Byte(true, PortCommanded(m, s, line, up), b, t) ==
        if s == t && b == (if UsesDefault(current) then DefaultMode else CurrentMode)
        then WithBit(Byte(true, m, b, t), line, up) else Byte(true, m, b, t)
  {
    hide Cell, WithBit, UsesDefault;
    if Cell(true, DefaultMode, s) == Cell(true, b, t) {
      CellsAreDisjoint(true, DefaultMode, s, b, t);
    }
    if Cell(true, CurrentMode, s) == Cell(true, b, t) {
      CellsAreDisjoint(true, CurrentMode, s, b, t);
    }
    if Cell(true, CurrentMode, s) == Cell(true, DefaultMode, s) {
      CellsAreDisjoint(true, CurrentMode, s, DefaultMode, s);
    }
  }

  /** A fiber port command, in bits: with one of the upper four bits of the current mode register set it goes to the
      default mode register, else to the current mode register; port 0 is bit 0 and port 1 bit 1, on cards with
      swapped control registers the other way round; and the other seven bits stay. */
  lemma PortLands(swapped: bool, m: Memory, s: Segment, port: PortNumber, up: bool)
    ensures
      var r := Apply(true, swapped, m, PortSet(s, port, up));
      var current := Byte(true, m, CurrentMode, s);
      var a := if current >= 0x10 then DefaultMode else CurrentMode;
      var other := if current >= 0x10 then CurrentMode else DefaultMode;
      var bit: bv8 := if swapped == (port == 0) then 0x02 else 0x01;
      && (Byte(true, r, a, s) & bit != 0 <==> up)
      && Byte(true, r, a, s) & !bit == Byte(true, m, a, s) & !bit
      && Byte(true, r, other, s) == Byte(true, m, other, s)
  {
    var current, line := Byte(true, m, CurrentMode, s), Line(swapped, port);
    ByteAfterPort(m, s, line, up, CurrentMode, s);
    ByteAfterPort(m, s, line, up, DefaultMode, s);
    UpperHalf(current);
    OneBit(Byte(true, m, CurrentMode, s), line, up);
    OneBit(Byte(true, m, DefaultMode, s), line, up);
    hide WithBit, Byte, PortCommanded, UsesDefault, Bit;
  }

  lemma UpperHalf(byte: bv8)
    ensures UsesDefault(byte) <==> byte >= 0x10
  {
  }

  lemma UsesUpper(byte: bv8)
    ensures UsesDefault(byte) <==> byte & 0xF0 != 0
  {
  }

  lemma OneBit(byte: bv8, line: PortNumber, up: bool)
    ensures var r, bit: bv8 := WithBit(byte, line, up), if line == 0 then 0x01 else 0x02;
      (r & bit != 0 <==> up) && r & !bit == byte & !bit
  {
  }

  lemma ReadingFits(fiber: bool, m: Memory, a: Attribute, s: Segment)
    ensures Fits(Reading(fiber, m, a, s))
  {
    hide Byte;
  }

  /** Port commands change no attribute. */
  lemma PortsKeepAttributes(m: Memory, s: Segment, line: PortNumber, up: bool, b: Attribute, t: Segment)
    ensures Reading(true, PortCommanded(m, s, line, up), b, t) == Reading(true, m, b, t)
  {
    hide PortCommanded, Decoded, WithBit, Byte;
    ByteAfterPort(m, s, line, up, b, t);
    PortBitIsSeparate(Byte(true, m, b, t), line, up);
  }

  lemma SettingReads(fiber: bool, m: Memory, c: Command, a: Attribute, s: Segment)
    requires c.Set? && Accepted(c.attr, c.value)
    ensures var r := Reading(fiber, Stored(fiber, m, c.attr, c.segment, c.value), a, s);
      if c.attr == a && c.segment == s then r == c.value <==> Fits(c.value) else r == Reading(fiber, m, a, s)
  {
    hide Accepted, Encoded, Decoded, Stored, Byte;
    ByteAfterSet(fiber, m, c.attr, c.segment, c.value, a, s);
    EncodingRoundTrip(fiber, c.attr, Byte(fiber, m, c.attr, c.segment), c.value);
  }

  lemma CommandReads(fiber: bool, swapped: bool, m: Memory, c: Command, a: Attribute, s: Segment)
    ensures var r := Reading(fiber, Apply(fiber, swapped, m, c), a, s);
      if c.Set? && c.attr == a && c.segment == s && Accepted(a, c.value)
      then r == c.value <==> Fits(c.value)
      else r == Reading(fiber, m, a, s)
  {
    hide Accepted, Reading, Stored, PortCommanded, Fits, Line;
    if c.PortSet? {
      if fiber {
        PortsKeepAttributes(m, c.segment, Line(swapped, c.port), c.up, a, s);
      }
    } else if Accepted(c.attr, c.value) {
      SettingReads(fiber, m, c, a, s);
    }
  }

  /** The attributes of a card are independent variables: after any run of attribute settings, accepted
      or not, on any segments, mixed with port commands, each attribute of each segment reads as the last
      value accepted for it, exactly if that value fits in a byte. */
  lemma {:induction false} AttributesAreVariables(fiber: bool, swapped: bool, m: Memory, commands: seq<Command>,
                                                  a: Attribute, s: Segment)
    ensures var last := LastSet(commands, a, s, Reading(fiber, m, a, s));
      Reading(fiber, Run(fiber, swapped, m, commands), a, s) == last <==> Fits(last)
    decreases |commands|
  {
    hide Accepted, Reading, Apply, Fits;
    ReadingFits(fiber, m, a, s);
    if commands != [] {
      var earlier, c := commands[..|commands| - 1], commands[|commands| - 1];
      AttributesAreVariables(fiber, swapped, m, earlier, a, s);
      CommandReads(fiber, swapped, Run(fiber, swapped, m, earlier), c, a, s);
    }
  }

  /** One fiber line of one segment: which register is in charge, and the line's bit in either. */
  datatype Enables = Enables(byDefault: bool, inCurrent: bool, inDefault: bool)

  predicate On(e: Enables) {
    if e.byDefault then e.inDefault else e.inCurrent
  }

  function EnablesOf(m: Memory, s: Segment, line: PortNumber): Enables {
    var current := Byte(true, m, CurrentMode, s);
    Enables(UsesDefault(current), HasBit(current, line), HasBit(Byte(true, m, DefaultMode, s), line))
  }

  /** What a command means for the line: a port command for it switches it where it is in charge, a
      default mode enables it in the default register, a current mode puts that register in charge. */
  function Switched(e: Enables, swapped: bool, c: Command, s: Segment, line: PortNumber): Enables {
    if c.segment != s then e
    else match c
      case PortSet(_, port, up) =>
        if Line(swapped, port) != line then e
        else if e.byDefault then e.(inDefault := up) else e.(inCurrent := up)
      case Set(a, _, value) =>
        if !Accepted(a, value) then e
        else if a == CurrentMode then e.(byDefault := true, inCurrent := e.inCurrent && value != 0x70)
        else if a == DefaultMode then e.(inDefault := true)
        else e
  }

  function SwitchedBy(e: Enables, swapped: bool, commands: seq<Command>, s: Segment, line: PortNumber): Enables
    decreases |commands|
  {
    if commands == [] then e
    else
      var before := SwitchedBy(e, swapped, commands[..|commands| - 1], s, line);
      Switched(before, swapped, commands[|commands| - 1], s, line)
  }

  lemma PortSwitches(swapped: bool, m: Memory, c: Command, s: Segment, line: PortNumber)
    requires c.PortSet?
    ensures EnablesOf(PortCommanded(m, c.segment, Line(swapped, c.port), c.up), s, line)
         == Switched(EnablesOf(m, s, line), swapped, c, s, line)
  {
    hide PortCommanded, Byte, WithBit, HasBit, UsesDefault, Decoded;
    var l := Line(swapped, c.port);
    ByteAfterPort(m, c.segment, l, c.up, CurrentMode, s);
    ByteAfterPort(m, c.segment, l, c.up, DefaultMode, s);
    PortBitIsSeparate(Byte(true, m, CurrentMode, s), l, c.up);
    PortBitIsSeparate(Byte(true, m, DefaultMode, s), l, c.up);
  }

  lemma SettingSwitches(swapped: bool, m: Memory, c: Command, s: Segment, line: PortNumber)
    requires c.Set? && Accepted(c.attr, c.value)
    ensures EnablesOf(Stored(true, m, c.attr, c.segment, c.value), s, line)
         == Switched(EnablesOf(m, s, line), swapped, c, s, line)
  {
    hide Accepted, Stored, Byte, HasBit, UsesDefault, Encoded;
    ByteAfterSet(true, m, c.attr, c.segment, c.value, CurrentMode, s);
    ByteAfterSet(true, m, c.attr, c.segment, c.value, DefaultMode, s);
    ModesAndEnables(Byte(true, m, c.attr, c.segment), c.value, line);
  }

  /** On a fiber card each line of each segment goes its own way under every run of commands: its enables and
      the register in charge are moved by the commands meant for it and by nothing else, not by those
      for its companion line, for other segments or for other attributes. */
  lemma {:induction false} LinesFollowCommands(swapped: bool, m: Memory, commands: seq<Command>,
                                               s: Segment, line: PortNumber)
    ensures EnablesOf(Run(true, swapped, m, commands), s, line)
         == SwitchedBy(EnablesOf(m, s, line), swapped, commands, s, line)
    decreases |commands|
  {
    hide Accepted, Stored, PortCommanded, EnablesOf, Line;
    if commands != [] {
      var earlier, c := commands[..|commands| - 1], commands[|commands| - 1];
      LinesFollowCommands(swapped, m, earlier, s, line);
      var before := Run(true, swapped, m, earlier);
      if c.PortSet? {
        PortSwitches(swapped, before, c, s, line);
      } else if Accepted(c.attr, c.value) {
        SettingSwitches(swapped, before, c, s, line);
      }
    }
  }

  /** The last command for the line, where setting the default mode counts as enabling it. */
  function LastEnable(swapped: bool, commands: seq<Command>, s: Segment, line: PortNumber, initial: bool): bool
    decreases |commands|
  {
    if commands == [] then initial
    else
      var c := commands[|commands| - 1];
      if c.PortSet? && c.segment == s && Line(swapped, c.port) == line then c.up
      else if c.Set? && c.attr == DefaultMode && c.segment == s && Accepted(DefaultMode, c.value) then true
      else LastEnable(swapped, commands[..|commands| - 1], s, line, initial)
  }

  /** Once the default register is in charge it stays so and the last command for the line decides; under
      port commands alone the register in charge never changes and the last command decides, too. */
  lemma {:induction false} LastCommandDecides(e: Enables, swapped: bool, commands: seq<Command>,
                                              s: Segment, line: PortNumber)
    requires e.byDefault || forall c :: c in commands ==> c.PortSet?
    ensures var r := SwitchedBy(e, swapped, commands, s, line);
      r.byDefault == e.byDefault && On(r) == LastEnable(swapped, commands, s, line, On(e))
    decreases |commands|
  {
    hide Accepted, Line;
    if commands != [] {
      LastCommandDecides(e, swapped, commands[..|commands| - 1], s, line);
      assert commands[|commands| - 1] in commands;
    }
  }

  // The setters and getters.

  /** The offset byte of a register number of the tables. */
  function Offset(fiber: bool, a: Attribute, s: Segment): bv8 {
    match a
    case CurrentMode => if s == 0 then 49 else if s == 1 then 55 else if s == 2 then 37 else 43
    case DefaultMode =>
      if fiber then if s == 0 then 48 else if s == 1 then 54 else if s == 2 then 36 else 42
      else if s == 0 then 50 else if s == 1 then 56 else if s == 2 then 38 else 44
    case TimeoutScaler => if s == 0 then 0 else if s == 1 then 1 else if s == 2 then 2 else 3
    case PowerOffMode => if s == 0 then 51 else if s == 1 then 57 else if s == 2 then 39 else 45
  }

  lemma OffsetIsCell(fiber: bool, a: Attribute, s: Segment)
    ensures Host.Cell(Offset(fiber, a, s)) == Cell(fiber, a, s)
  {
  }

  /** What a setter stores. */
  function Stores(fiber: bool, m: Memory, a: Attribute, s: Segment, value: bv32): seq<(int, bv8)> {
    if Accepted(a, value) then [(Cell(fiber, a, s), Encoded(fiber, a, Byte(fiber, m, a, s), value))] else []
  }

  /** One card as module/api.c and module/port.c see it: the CPU's registers behind cpu_read and cpu_write, through
      whichever transport the card has. */
  class Card {
    const fiber: bool
    const swapped: bool
    const host: Host.Card

    constructor (fiber: bool, swapped: bool, host: Host.Card)
      ensures this.fiber == fiber && this.swapped == swapped && this.host == host
    {
      this.fiber, this.swapped, this.host := fiber, swapped, host;
    }

    /** The link is healthy, nothing is outstanding and the CPU answers in time. */
    ghost predicate Ready()
      reads host, FunctionTable.Repr(host.backend)
    {
      host.Valid() && host.Quiet() && host.Prompt()
    }

    method CpuRead(a: Attribute, segment: Segment) returns (res: bv8)
      requires Ready()
      modifies host, FunctionTable.Repr(host.backend)
      ensures Ready() && host.mem == old(host.mem) && host.stores == old(host.stores)
      ensures res == Byte(fiber, host.mem, a, segment)
    {
      hide Cell, Offset, Reg;
      OffsetIsCell(fiber, a, segment);
      res := host.Read(Offset(fiber, a, segment));
    }

    /** The value is truncated to uint8_t on the way in. */
    method CpuWrite(a: Attribute, segment: Segment, value: bv32)
      requires Ready()
      modifies host, FunctionTable.Repr(host.backend)
      ensures Ready() && host.mem == old(host.mem)[Cell(fiber, a, segment) := Low(value)]
      ensures host.stores == old(host.stores) + [(Cell(fiber, a, segment), Low(value))]
    {
      hide Cell, Offset, Low;
      OffsetIsCell(fiber, a, segment);
      var _ := host.Write(Offset(fiber, a, segment), Low(value));
    }

    method SetCurrentMode(segment: Segment, value: bv32) returns (rc: int)
      requires Ready()
      modifies host, FunctionTable.Repr(host.backend)
      ensures rc == if Accepted(CurrentMode, value) then 0 else -22
      ensures Ready() && host.mem == Apply(fiber, swapped, old(host.mem), Set(CurrentMode, segment, value))
      ensures host.stores == old(host.stores) + Stores(fiber, old(host.mem), CurrentMode, segment, value)
    {
      if Low(value) != 0x70 && Low(value) > 5 {
        return -EINVAL;
      }
      var v := value;
      if fiber {
        if v != 0x70 {
          var before := CpuRead(CurrentMode, segment);
          v := (v << 3) | (Wide(before) & 3);
        }
        v := v | 0x80;
      }
      CpuWrite(CurrentMode, segment, v);
      return 0;
    }

    method GetCurrentMode(segment: Segment) returns (value: bv32)
      requires Ready()
      modifies host, FunctionTable.Repr(host.backend)
      ensures Ready() && host.mem == old(host.mem) && host.stores == old(host.stores)
      ensures value == Reading(fiber, host.mem, CurrentMode, segment)
    {
      var byte := CpuRead(CurrentMode, segment);
      value := Wide(byte);
      if fiber {
        value := value & 0x7F;
        if value != 0x70 {
          value := value >> 3;
        }
      }
    }

    method SetDefaultMode(segment: Segment, value: bv32) returns (rc: int)
      requires Ready()
      modifies host, FunctionTable.Repr(host.backend)
      ensures rc == if Accepted(DefaultMode, value) then 0 else -22
      ensures Ready() && host.mem == Apply(fiber, swapped, old(host.mem), Set(DefaultMode, segment, value))
      ensures host.stores == old(host.stores) + Stores(fiber, old(host.mem), DefaultMode, segment, value)
    {
      if Low(value) > 5 {
        return -EINVAL;
      }
      if fiber {
        CpuWrite(DefaultMode, segment, 0x83 | (value << 3));
      } else {
        CpuWrite(DefaultMode, segment, value);
      }
      return 0;
    }

    method GetDefaultMode(segment: Segment) returns (value: bv32)
      requires Ready()
      modifies host, FunctionTable.Repr(host.backend)
      ensures Ready() && host.mem == old(host.mem) && host.stores == old(host.stores)
      ensures value == Reading(fiber, host.mem, DefaultMode, segment)
    {
      var byte := CpuRead(DefaultMode, segment);
      value := Wide(byte);
      if fiber {
        value := (value & 0x7F) >> 3;
      }
    }

    method SetTimeoutScaler(segment: Segment, value: bv32) returns (rc: int)
      requires Ready()
      modifies host, FunctionTable.Repr(host.backend)
      ensures rc == 0
      ensures Ready() && host.mem == Apply(fiber, swapped, old(host.mem), Set(TimeoutScaler, segment, value))
      ensures host.stores == old(host.stores) + Stores(fiber, old(host.mem), TimeoutScaler, segment, value)
    {
      CpuWrite(TimeoutScaler, segment, value);
      return 0;
    }

    method GetTimeoutScaler(segment: Segment) returns (value: bv32)
      requires Ready()
      modifies host, FunctionTable.Repr(host.backend)
      ensures Ready() && host.mem == old(host.mem) && host.stores == old(host.stores)
      ensures value == Reading(fiber, host.mem, TimeoutScaler, segment)
    {
      var byte := CpuRead(TimeoutScaler, segment);
      value := Wide(byte);
    }

    method SetPowerOffMode(segment: Segment, value: bv32) returns (rc: int)
      requires Ready()
      modifies host, FunctionTable.Repr(host.backend)
      ensures rc == if Accepted(PowerOffMode, value) then 0 else -22
      ensures Ready() && host.mem == Apply(fiber, swapped, old(host.mem), Set(PowerOffMode, segment, value))
      ensures host.stores == old(host.stores) + Stores(fiber, old(host.mem), PowerOffMode, segment, value)
    {
      var byte := CpuRead(PowerOffMode, segment);
      if value != 1 && value != 0 {
        return -EINVAL;
      }
      hide Low, Wide, Encoded, Ready;
      var val := PowerBit(byte, value);
      CpuWrite(PowerOffMode, segment, val);
      return 0;
    }

    /** The bit set_power_off_mode sets or clears. */
    method PowerBit(byte: bv8, value: bv32) returns (val: bv32)
      ensures Low(val) == Encoded(fiber, PowerOffMode, byte, value)
    {
      val := Wide(byte);
      if value != 0 {
        val := val | (if fiber then 0x10 else 0x01);
      } else {
        val := val & !(if fiber then 0x10 else 0x01);
      }
    }

    method GetPowerOffMode(segment: Segment) returns (value: bv32)
      requires Ready()
      modifies host, FunctionTable.Repr(host.backend)
      ensures Ready() && host.mem == old(host.mem) && host.stores == old(host.stores)
      ensures value == Reading(fiber, host.mem, PowerOffMode, segment)
    {
      var byte := CpuRead(PowerOffMode, segment);
      value := Wide(byte);
      value := if fiber then 0x01 & (value >> 4) else 0x01 & value;
    }

    /** The bit each branch of fiber_port_set sets or clears. */
    method Switch(byte: bv8, line: PortNumber, up: bool) returns (res: bv8)
      ensures res == WithBit(byte, line, up)
    {
      res := byte;
      if up {
        res := res | Bit(line);
      } else {
        res := res & !Bit(line);
      }
    }

    method FiberPortSet(segment: Segment, port: PortNumber, up: bool)
      requires fiber && Ready()
      modifies host, FunctionTable.Repr(host.backend)
      ensures Ready() && host.mem == Apply(fiber, swapped, old(host.mem), PortSet(segment, port, up))
      ensures
        var current := Byte(true, old(host.mem), CurrentMode, segment);
        var both := [(Cell(true, DefaultMode, segment), Byte(true, host.mem, DefaultMode, segment)),
                     (Cell(true, CurrentMode, segment), Byte(true, host.mem, CurrentMode, segment))];
        host.stores == old(host.stores) + if current >= 0x10 then both else both[1..]
    {
      hide Low, Wide, Cell, WithBit, Reg, Accepted, Stored, Ready, UsesDefault;
      ghost var m, l := host.mem, Line(swapped, port);
      UpperHalf(Byte(true, m, CurrentMode, segment));
      ByteAfterPort(m, segment, l, up, CurrentMode, segment);
      ByteAfterPort(m, segment, l, up, DefaultMode, segment);
      assert Apply(fiber, swapped, m, PortSet(segment, port, up)) == PortCommanded(m, segment, l, up);
      var val := CpuRead(CurrentMode, segment);
      var line := port;
      if swapped {
        line := if port != 0 then 0 else 1;
      }
      assert UsesDefault(val) <==> val & 0xF0 != 0 by { UsesUpper(val); }
      if val & 0xF0 != 0 {
        var defaultVal := CpuRead(DefaultMode, segment);
        defaultVal := Switch(defaultVal, line, up);
        LowWide(defaultVal);
        CpuWrite(DefaultMode, segment, Wide(defaultVal));
      } else {
        val := Switch(val, line, up);
      }
      LowWide(val);
      CpuWrite(CurrentMode, segment, Wide(val));
    }
  }
}
