# Verification of the bypass NIC driver

The driver controls bypass network cards through a stack of small protocols. This project models that
stack in Dafny, from the wires up, and proves that each layer gives the one above it the simple thing it
believes it has.

| file | models |
|---|---|
| `CpldDevice.dfy` | the CPLD at the end of four wires and the slice transfers of the SDP and ESDP transports |
| `Words.dfy` | register words |
| `PinView.dfy`, `PinTransport.dfy` | the same transfers through NIC registers shared between pins, with NIC resets and wandering wires striking at register accesses, direction repair and retries |
| `DirectionTable.dfy` | the two direction repairs for any table of pins |
| `Transports.dfy`, `FunctionTable.dfy` | the flash and MDIO transports, and the function table over all four |
| `Mailbox.dfy` | the mailbox to the card's CPU as a transition system: any number of threads, kicks and two locks |
| `Host.dfy`, `MailboxLinks.dfy` | the mailbox calls one at a time, as the code runs them, through any transport; and the transition system against the other modules |
| `Lfd.dfy` | link fault detection |
| `Attributes.dfy`, `CopperPort.dfy` | attribute encodings and fiber port commands, down to the mailbox; copper port commands |
| `Discovery.dfy` | grouping PCI functions into cards and finding their control ports |
| `Spi.dfy` | programming the card's AVR over SPI lines that are slices of a CPLD register, down to the pins |

Objects that the code updates in place are classes; their methods follow the code statement by statement
and are proved against functions, and the results about whole runs are lemmas about those functions.

## Assumptions about the hardware

- CPLD: STB0 falling with STB1 high latches address bits 3..2; STB0 rising with STB1 low latches bits 1..0;
  STB0 falling with STB1 low latches the slice index; STB1 rising with STB0 low stores the data in the
  selected slice; other edges do nothing and DI shows the selected slice.
- Strikes: a NIC reset leaves a port's registers with any contents except that the pins of the link are inputs, and
  lets undriven wires take any levels; undriven wires may also change their levels by themselves. Strikes come just
  before a register access, any finite number of them; a list says how many and which, access by access. Nobody else
  repairs directions during a transfer.
- A list is called tame if at most one strike comes between any read and its write-back and, on ESDP, it is not a reset
  of port 0. This special case is named because no tame strike is insidious in the movements the driver makes; the results
  hold for all lists.
- The two DI pins are inputs of the NIC at first; the driver only ever makes them inputs.
- Card CPU: when bit 3 of CSR is set it carries out, at any later time or never, the read or write that bit 2 and the
  address and data registers ask for, and clears bit 3. In module Mailbox it looks between any two slices, in module
  Host before the register writes, the polls and the read of HOST_DAT of a call.
- MDIO: a command takes effect at some later poll of its register, or after the driver has given up, just before it writes
  a register of the controller again, or not at all; a slave follows section 45.3 of IEEE 802.3.
- PHY management: likewise, just before the next command replaces it.
- AVR: SPI mode 0 and the Serial Programming Instruction Set of the ATmega8. `cpld_tx_two` and
  `cpld_rx_two`, which `module/spi.c` calls, are taken to be the slice primitives of `module/cpld_sdp.c`.
- PCI: the functions of one table entry are distinct, and `pci_get_subsys` finds the one after the given one in a fixed
  order. Which CPLDs answer does not change during the scan.
- Everything the kernel provides (the list of PCI functions, mappings, signals, link state, time) is a parameter.

## Where the code falls short of what it is for

Each of these is a lemma or an exact condition in a contract.

- `cpu_read` and `cpu_write` start a new command without looking whether a timed-out one is still
  outstanding. The new command withdraws the old one, so that a write reported late never happens, or the old one hits
  the new offset or one that a half-written AVR_ADDR names. Exactly when that does harm: `Mailbox.BeginExactly`.
- The kick of the MDIO and flash backends writes all of CSR and takes an outstanding CPU command back
  (`MailboxLinks.WideKickLosesCall`, `Mailbox.WideKickBreaks`); the SDP and ESDP kicks do not. It is harmless
  exactly if none is outstanding (`Mailbox.WideKickExactly`).
- A write-back can undo the trace that a reset left since the read (`PinView.MoveIsTraceless`), and then a transfer goes
  wrong unnoticed exactly if the wires passed over harmful levels meanwhile (`PinView.MoveExactly`,
  `PinView.PathExactly`). On ESDP one reset of port 0 suffices (`PinView.TornEsdpTransferMisses`); on SDP, and on ESDP
  with port 1, it takes two strikes within one read-modify-write of STB1 (`PinView.OneEventIsTame`,
  `PinView.TwoResetsCommit`).
- `cpld_mdio_write` puts its data in MSRWD while a command given up earlier may still be pending
  (`Transports.LateFrameExactly`).
- Mode checks look at the low byte only; a value from 256 up can be accepted but is not read back
  (`Attributes.EncodingRoundTrip`).
- `copper_port_set` ignores a timed-out PHY read and then rewrites the control register from zero
  (`CopperPort.CommandedExactly`), and a timed-out PHY write may still be carried out
  (`CopperPort.LateWriteExactly`).
- The segment swap of `niagara_init` uses `pci_dev` as its temporary, which is also the cursor of the enumeration. After
  a four-port N32264 or N42264 the loop goes on with the third function of that same card. So two such cards are taken
  for three (`Discovery.TwoSwappedCards`), three are too many (`Discovery.SwappedCardsMultiply`), and one in fourth
  place is, too (`Discovery.SwappedLastFails`). Exactly when that happens: `Discovery.CardsAreFoundExactly`,
  `Discovery.CardsAreApartExactly`, `Discovery.TooManyExactly`.
- A rejected card leaves its network devices in the slot, which hides that a later function has none
  (`Discovery.RejectedCardLeavesNetDevice`); and the scan gives up on the first try after four cards
  even if it does not belong to a working card (`Discovery.ScanSucceedsExactly`).
- `cpld_sdp_kick` repairs directions after it has given up the lock, which can write a stale level into another
  thread's transfer or hide a reset from it (`PinView.StaleStrobeCommits`, `PinView.HiddenResetExactly`).
- A `lfd_start` or `lfd_stop` broken off by a signal can leave the global flag wrong (`Lfd.Driver.Start`,
  `Lfd.Driver.Stop`).

## Model

| member | source | states |
|---|---|---|
| `CpldDevice.WaveformDecodes` | module/cpld_sdp.c:95-153 | From any pin levels and any decoder latches, the pin waveform of any sequence of `tx_two` and `rx_two` calls decodes to exactly that sequence's list of writes, and every read sampled what the writes before it left in the addressed slice. |
| `CpldDevice.TransmitCommitsOnce` | module/cpld_sdp.c:95-126 | One `tx_two` stores exactly one slice, of (addr mod 16, bsl mod 4, dat mod 4), whatever levels and latches it starts from, and leaves both strobes low. |
| `CpldDevice.SelectSynchronises` | module/cpld_sdp.c:128-153 | The header resynchronises a decoder in any state: it stores nothing and leaves exactly the addressed slice on DI. |
| `CpldDevice.PreambleIsSilent` | module/cpld_sdp.c:97-99 | Raising STB0 before STB1 can never store anything, from any levels. |
| `CpldDevice.HeaderLatches` | module/cpld_sdp.c:101-115 | After the preamble the three latches take address bits 3..2, 1..0 and the slice index, and nothing else changes. |
| `CpldDevice.StrobeCommits` | module/cpld_sdp.c:117-123 | The last strobe stores the two data bits in the selected slice, once. |
| `CpldDevice.SlicesMakeByte` | module/cpld_sdp.c:162-189 | A byte split into four slices is the byte, whatever the register held, and reading the four slices together gives it back. |
| `CpldDevice.TransmitByteStores` | module/cpld_sdp.c:186-189 | Four transmitted slices set the addressed register to the byte and leave every other register alone. |
| `PinView.MoveDetects` | module/cpld_sdp.c:64-86 | If all outputs are driven after a pin movement, they were before it, and the CPLD saw exactly that movement unless what happened between the read and the write-back was insidious. Any finite number of resets of either port and of undriven wires changing their levels may come before the read and before the write-back, on SDP and ESDP. Without any, directions and register bits of other purposes stay. |
| `PinView.MoveExactly` | module/cpld_sdp.c:64-80 | If all outputs are driven after a pin movement, the CPLD saw exactly that movement if and only if the events between read and write-back were not insidious. |
| `PinView.PathExactly` | module/cpld_sdp.c:64-80 | Which levels passing over the wires before they settle are harmless, exactly: while STB1 moves, if and only if STB0 is high or STB1 rises no more often than it is meant to; while a pin of port 0 moves, if and only if each latch that STB0 may hit takes at its last edge what it would have held anyway. |
| `PinView.MoveIsTraceless` | module/cpld_sdp.c:64-80 | All directions are right after a movement if and only if they were before it, no reset came before the read, and those before the write-back hit only what it overwrites: on SDP port 1 while STB1 moves, on ESDP the port being written. |
| `PinView.InsidiousMisleads` | module/cpld_sdp.c:64-80 | The converse: insidious events leave all directions right and the CPLD misled. |
| `PinView.GlitchExactly` | module/cpld_sdp.c:64-80 | A single float of STB1 before it moves is harmless if and only if it floats at the level it is moved to, or that level is new, or STB0 is high. |
| `PinView.OneEventIsTame` | module/cpld_sdp.c:95-126 | A single event is insidious only as a reset of port 0 on ESDP, as long as STB1 is moved only where a single float is harmless, as the transfers do. |
| `PinView.TwoResetsCommit` | module/cpld_sdp.c:104-104 | Two are not, on SDP either: with STB0 low, two port 1 resets between the read and the write-back of lowering STB1, with the wire low and then high, leave all directions right and store the stale slice once more. |
| `PinView.StaleMendExactly` | module/cpld_sdp.c:216-218 | A register that another thread's repair read earlier and writes back in the middle of a transfer is harmless, that is, the outputs stay driven and the CPLD sees nothing, if and only if the outputs in it are at the levels read then and were outputs then. |
| `PinView.StaleStrobeCommits` | module/cpld_sdp.c:216-218 | Otherwise, for one: STB1 written back high, when both strobes are low, stores a slice nobody sent, and all directions are right. |
| `PinView.HiddenResetExactly` | module/cpld_sdp.c:216-218 | A repair by another thread after a reset of either port hides that reset, on SDP and ESDP, and the CPLD has not noticed the reset if and only if the wires have come back to their levels and on the way either STB1 did not rise with STB0 low (port 1) or each latch was left as it was (port 0). |
| `PinView.TornEsdpTransferMisses` | module/cpld_esdp.c:94-156 | What an insidious reset of port 0 can do to an ESDP transfer: the data goes to the addressed register exactly if two header bits happen to agree. |
| `PinTransport.RmwIsMoved` | module/cpld_sdp.c:64-86 | Read-modify-write of a whole 32-bit register shared by several pins, with any strikes before the read and before the write-back, is a move of one pin. |
| `PinTransport.TraceGrows` | module/cpld_sdp.c:64-86 | The trace accounts for board and schedule access by access, for the spoilt moves one by one, and for the moves in order. |
| `DirectionTable.Registers.SetPinDirection` | module/cpld_sdp.c:26-49 | For any table of pins with distinct direction bits, on any registers: 0 if and only if all directions were right, and then nothing was written; otherwise every row from the first wrong one on is written; all are right afterwards, and no bit but directions has changed (bits of input pins take the level read). |
| `DirectionTable.Registers.SetPortDirection` | module/cpld_esdp.c:44-76 | The same for the loop that repairs one register of any such table, with one write exactly if one is needed, and no other register is touched. |
| `PinTransport.TablesFit` | module/cpld_sdp.c:17-24 | Both pin tables have distinct direction bits, where no input pin shows. |
| `PinTransport.PinsAreSdp` | module/cpld_sdp.c:17-24 | Both pin tables use the same software-definable pins of the NIC: 2 and 3 for data, 0 of either port for the strobes; each direction bit is four bits (SDP) or eight bits (ESDP) above its data bit. |
| `PinTransport.RepairIsInstance` | module/cpld_sdp.c:26-49 | Righting all rows of either table without touching another bit is the repair the transfers rely on. |
| `PinTransport.RepairIsMend` | module/cpld_sdp.c:36-43 | What such a repair writes to the whole register, on either transport, is that write of the view. |
| `PinTransport.PartialRights` | module/cpld_sdp.c:32-46 | After n rounds of the loop the first n pins have the directions of the table and the others theirs; data and other bits stay. |
| `PinTransport.DirectedWordIsPortWord` | module/cpld_esdp.c:55-65 | The ESDP loop over the table sets exactly the direction bits of the port. |
| `PinTransport.EsdpCheck` | module/cpld_esdp.c:67-73 | Comparing bits 8 to 15 before and after the loop differs exactly if some direction of the port was wrong. |
| `PinTransport.AllRowsRight` | module/cpld_sdp.c:17-24 | The outputs are driven exactly if every row of the table is found right. |
| `PinTransport.KickSetsItsBit` | module/cpld_sdp.c:209-214 | The slice a kick stores is the bit 0x10 << segment of the byte-wide backends; the low nibble and the other pair of kick bits stay. |
| `PinTransport.PowerOffFixExactly` | module/cpld_sdp.c:56-59 | The I350 fix sets register 1 to 0x55 and bit 1 of register 8; the other seven bits of register 8 and all other registers stay. |
| `PinTransport.SampledSlicesMakeByte` | module/cpld_sdp.c:162-165 | The four sampled slices, put together by the shifts of the read, are the register's byte. |
| `PinTransport.PinBus.BitUp` | module/cpld_sdp.c:64-71 | Raises one pin, with any finite number of strikes before the read and before the write-back: board and schedule afterwards are those of this one move, which is what the trace gains, and the count of spoilt moves grows if and only if the strikes before the write-back were insidious. If the outputs are driven afterwards and they were not, the CPLD saw just that. No tame gap is insidious where a single float of STB1 is harmless. Without strikes no other register bit changes. |
| `PinTransport.PinBus.BitDown` | module/cpld_sdp.c:73-80 | Lowers one pin, likewise. |
| `PinTransport.PinBus.BitSet` | module/cpld_sdp.c:82-86 | Moves one pin to the given level, likewise. |
| `PinTransport.PinBus.BitGet` | module/cpld_sdp.c:88-93 | If the outputs are driven afterwards, the level is that of the DI line and the CPLD is as before. |
| `PinTransport.PinBus.TxTwo` | module/cpld_sdp.c:95-126 | Makes exactly the sixteen moves of a transmission. If the outputs are driven afterwards and none of these moves was spoilt by an insidious strike, the CPLD saw a whole slice transmission and nothing else, although any finite number of strikes may come before every register access; tame strikes never spoil one here. |
| `PinTransport.PinBus.RxTwo` | module/cpld_sdp.c:128-153 | Makes exactly the moves of the header. If the outputs are driven afterwards and none of them was spoilt, the CPLD saw only the header and the value is the addressed slice; tame strikes never spoil one. |
| `PinTransport.PinBus.CheckPin` | module/cpld_sdp.c:33-45 | One row of the repair loop: rights that direction, tells whether it was wrong, and makes one read and, exactly if this or an earlier row was wrong, one write. |
| `PinTransport.PinBus.SetPinDirection` | module/cpld_sdp.c:26-49 | Returns 0 only if every direction was right when it began. Without a strike meanwhile: 0 exactly then, with nothing written, and otherwise every direction is right afterwards with no other bit changed. |
| `PinTransport.PinBus.SetPortDirection` | module/cpld_esdp.c:44-76 | The same for the pins of one port, in one read and exactly when needed one write, with strikes before either. |
| `PinTransport.PinBus.InitIoDirection` | module/cpld_esdp.c:78-88 | The ESDP repair of both ports meets the contract of the SDP repair. |
| `PinTransport.PinBus.SendByte` | module/cpld_sdp.c:186-189 | One attempt of a write, with exactly its moves: if the outputs are driven afterwards and none was spoilt, the CPLD saw the four slices of the byte. |
| `PinTransport.PinBus.ReceiveByte` | module/cpld_sdp.c:162-165 | One attempt of a read, with exactly its moves: if the outputs are driven afterwards and none was spoilt, the value is the register's and no register has changed. |
| `PinTransport.PinBus.Write` | module/cpld_sdp.c:181-203 | Terminates whatever finite number of strikes comes before each register access, after making the moves of at least one attempt, some number of times, and no others. At the end of the transfers of its last attempt the log of what the CPLD stored, which only grows and accounts for all registers, ends, unless a move of this call was spoilt by an insidious strike, with the four slices of the byte, stored in this call, so the register held the byte; afterwards at most one slice is stored for each strike of the final check. Which moves were spoilt is decided by the trace of register accesses, which accounts for the board. Tame strikes never spoil one. Without strikes, starting from driven outputs, exactly that register changes, by exactly four commits. Every register access of the call is made under the lock, which is released. |
| `PinTransport.PinBus.Read` | module/cpld_sdp.c:155-179 | Terminates likewise, with only the moves of its attempts, and returns, unless a move of this call was spoilt, what the register held at a point of that same log within the call, the end of the transfers of its last attempt; without strikes, starting from driven outputs, nothing is stored. Every register access of the call is made under the lock, which is released. |
| `PinTransport.PinBus.SendKick` | module/cpld_sdp.c:209-214 | Makes exactly the moves of the kick. If the outputs are driven afterwards and none was spoilt, the CPLD stored the slice of the kick bit and nothing else; nothing for a segment beyond 3. |
| `PinTransport.PinBus.Kick` | module/cpld_sdp.c:205-219 | A busy lock is left alone and nothing is done. Otherwise exactly the moves of the kick are made, under the lock, and the lock is free on return; the final repair comes after that. 0 means, unless one of these moves was spoilt, that the log shows the slice of the segment's kick bit, stored in this call, as the last thing when the transfer was over, with at most one more slice for each strike. Without strikes: the outputs are driven afterwards; ESDP, which repairs first, always returns 0 and SDP exactly if the outputs were driven before; starting from driven outputs, the kick's slice is the only thing stored. |
| `PinTransport.PinBus.Init` | module/cpld_sdp.c:51-62 | Terminates; without strikes all outputs are driven afterwards and no register has changed since the directions were right, except for the I350 power-off fix on SDP; if they were right at first, that is since the call. |
| `Transports.WiredIsNumber` | module/cpld_sdp.c:101-108 | The four wires of the pin transports and the address byte of the other two name the same sixteen registers. |
| `Transports.FlashBus.Init` | module/cpld_flash.c:4-11 | Opens the flash window for writing and changes no other bit of EECD. |
| `Transports.FlashBus.Kick` | module/cpld_flash.c:23-28 | Sets CSR as a whole byte to the kick bit. |
| `Transports.CommandWordDecodes` | module/cpld_mdio.c:41-43 | Every MSCA command word is in progress and decodes to its operation, port, device and address without overlap. |
| `Transports.MdioBus.PollDone` | module/cpld_mdio.c:47-53 | The poll is bounded and succeeds exactly if the command finishes within ten reads; the frame takes effect exactly then. |
| `Transports.MdioBus.Issue` | module/cpld_mdio.c:40-57 | One phase: the frame reaches the slave exactly if the poll succeeds. |
| `Transports.MdioBus.Read` | module/cpld_mdio.c:33-83 | Against an IEEE 802.3 section 45.3 slave: the byte of the addressed register if both phases are in time and the slave answers at the address, else 0xFF; it changes no register itself, leaves a command in progress exactly if it times out, and releases the lock on every exit. |
| `Transports.MdioBus.Write` | module/cpld_mdio.c:85-140 | Returns 0 exactly if both phases are in time, and then the addressed register of an answering slave holds the byte and nothing is left in progress; otherwise a command is. No other register changes, but for what a command given up earlier does when it is carried out now, before its data is replaced or after. Every exit releases the lock. |
| `Transports.LateFrameExactly` | module/cpld_mdio.c:85-140 | A write given up earlier that is carried out during the next write stores the new data at the old address; the registers are nevertheless right if and only if the addresses are the same or the old one held that byte. |
| `Transports.MdioBus.Kick` | module/cpld_mdio.c:141-145 | Sets CSR as a whole byte to the kick bit if both phases are in time. |
| `FunctionTable.Client` | module/niagara_module.h:96-134 | For any sequence of reads and writes of the sixteen registers, through any of the four backends, without strikes or timeouts: the reads and the final contents are those of one register file. |
| `FunctionTable.CpldWrite` | module/niagara_module.h:133-133 | Every backend sets exactly the addressed register, if the CPLD is there, and else none. |
| `FunctionTable.CpldRead` | module/niagara_module.h:132-132 | Every backend returns the addressed register, or 0xFF if no CPLD is there, and changes none. |
| `FunctionTable.CpldKick` | module/niagara_module.h:134-134 | Every backend changes only CSR: the pin transports one slice, the other two the whole byte. |
| `FunctionTable.CpldInit` | module/niagara_module.h:131-131 | `cpld_init` makes every calm link ready, with driven pins or an open flash window; it keeps the register file of a ready link, but for the I350 fix, which is applied on SDP in any case. |
| `FunctionTable.CpldAccessible` | module/cpld_validate.c:20-25 | After any calm start the CPLD is recognised if and only if it is where the control ports say, whichever backend; then AVR_ADDR holds 2, and other registers have changed by the I350 fix only. |
| `FunctionTable.KicksCompared` | module/cpld_mdio.c:141-145 | The byte of a byte-wide kick is the bit the pin kick sets in a clear CSR, and every backend's kick sets it. The pin kick keeps the low nibble of CSR; the byte-wide kick keeps the bit that says a command is outstanding exactly if it is clear. |
| `Mailbox.MailboxIsSequential` | module/cpu.c:42-66 | For any number of threads, any interleaving of the single slice transfers of their `cpu_read` and `cpu_write` calls with kicks anywhere and the CPU answering at any time or too late, from any state of the invariant between two calls: every read that did not time out returns the value the calls finished before it left at its offset. Orderly means: a call begins only when it may (`BeginExactly`), and no byte-wide kick comes while a command is outstanding. |
| `Mailbox.BeginExactly` | module/cpu.c:42-66 | The condition on calls is the exact one: all orderly runs after the beginning of a call are sequential if and only if no timed-out write is outstanding or its value is already in the memory at each of the five offsets that AVR_ADDR passes through, slice by slice, from its own to that of the call; an offset that the call itself writes is exempt. |
| `Mailbox.InTimeCallsAreExact` | module/cpu.c:42-66 | In every run, orderly or not but for byte-wide kicks into outstanding commands: a write that ends in time is in the CPU memory, a read that ends in time returns what the CPU memory holds, and nothing is outstanding then. |
| `Mailbox.NextKeeps` | module/cpu.c:6-66 | The inductive invariant, which ties the program point of the holder of the CPU lock to AVR_ADDR, AVR_DAT, CSR, HOST_DAT and the outstanding command, is kept by every orderly action. |
| `Mailbox.NextKeepsOwnCall` | module/cpu.c:42-66 | What the holder of the CPU lock has made of the registers is kept by every action but a byte-wide kick into an outstanding command, whatever was left behind before. |
| `Mailbox.NextKeepsLocks` | module/cpu.c:6-22 | The lock bits tell who is inside which section; every action keeps that. |
| `Mailbox.LockDiscipline` | module/cpld_lock.c:3-19 | In every state of every run: at most one thread in the CPU section and one in the CPLD section; a thread waiting for the CPU lock holds nothing; the holder of the CPLD lock can move. |
| `Mailbox.SomeThreadMoves` | module/cpu.c:16-22 | No run deadlocks: while a thread is inside the driver some thread can move. |
| `Mailbox.DisorderBreaks` | module/cpu.c:42-66 | For each such offset that fails the condition an explicit run that no plain memory explains: the new command withdraws the old one, or the CPU answers just after the first k slices of AVR_ADDR and a read of that offset tells. |
| `Mailbox.LateAnswerMisleads` | module/cpu.c:42-53 | The other way to break: a late answer after a read of another offset has written AVR_ADDR stores the old value at the new offset and the read returns it. |
| `Mailbox.LateCommandHitsNextCall` | module/cpu.c:55-66 | After that late answer exactly the new offset has changed, to the old value. |
| `Mailbox.WideKickBreaks` | module/cpld_flash.c:23-28 | The condition on kicks is needed: a byte-wide kick while a write waits makes it end as if in time with nothing stored, and a read tells. |
| `Mailbox.WideKickExactly` | module/cpld_flash.c:23-28 | Between accesses a byte-wide kick keeps the invariant if and only if no command is outstanding. |
| `Mailbox.CallRuns` | module/cpu.c:42-66 | A lone call answered at once, from any state with free locks, does to the CPU memory what it should and returns what it should, whatever was outstanding. |
| `Mailbox.IgnoredWriteTimesOut` | module/cpu.c:55-66 | That state arises: a write the CPU ignores ends by itself after 10000 polls, reports the timeout, releases both locks and leaves its command outstanding. |
| `Mailbox.PollsGiveUp` | module/cpu.c:25-38 | `cpu_wait` gives up after reading CSR exactly 10000 times in vain and changes no register. |
| `Mailbox.WriteHandsOver` | module/cpu.c:59-62 | A lone `cpu_write` has both arguments and the command in the mailbox when it starts to poll. |
| `Mailbox.AccessTakesSix` | module/cpld_sdp.c:181-203 | Lock, four slices and unlock of an undisturbed thread are one whole byte access. |
| `Mailbox.ReadReturnsExpected` | module/cpu.c:42-53 | Where the invariant holds, a read that ends in time returns what the memory of the finished calls holds. |
| `Mailbox.AnswerKeeps` | module/cpu.c:25-38 | An answer of the CPU at any point of any call keeps the invariant. |
| `Mailbox.CallKeeps` | module/cpld_sdp.c:205-207 | A call or pin kick entering at any point keeps the invariant. |
| `Mailbox.KickGivesUp` | module/cpld_sdp.c:207-207 | A kick that finds the CPLD lock taken does nothing. |
| `Mailbox.SliceKeeps` | module/cpu.c:46-63 | Each single slice of each access of the lock holder keeps the invariant. |
| `Host.Card.Wait` | module/cpu.c:25-38 | Through any backend: 0 exactly if the command is served within 10000 reads of CSR. |
| `Host.Card.Read` | module/cpu.c:42-53 | Through any backend: the value at the offset if the CPU answers in time or just before HOST_DAT is read, else the contents of HOST_DAT. The CPU may also look before each register write and carry out a command given up earlier; what that does to memory and registers is stated exactly, and nothing if none was outstanding. An answer in time leaves nothing outstanding. The whole exchange is made under the CPU lock, which is free afterwards; nothing is stored. |
| `Host.Card.Write` | module/cpu.c:55-66 | Through any backend: 0 exactly if the CPU answers in time, and then the value is stored; 255 exactly if the command is left to later. Nothing else changes but by a command given up earlier, likewise. The whole exchange is made under the CPU lock, which is free afterwards; with nothing outstanding before, the CPU makes exactly this one store. |
| `Host.LateWriteMisleads` | module/cpu.c:42-53 | A read that begins while a timed-out write is outstanding returns, if answered in time and whenever the CPU looked before, what the memory held, if and only if the memory held the value of that write there. |
| `Host.LateWriteMeetsRead` | module/cpu.c:42-53 | The three outcomes for the memory: untouched, the old value at its own offset, or the old value at the offset of the read. |
| `Host.LateWriteMeetsWrite` | module/cpu.c:55-66 | A write that begins then, one whole register at a time, still puts its own value at its own offset, and otherwise at most the old write is carried out as it was meant. |
| `Host.ReadIsServed` | module/cpu.c:48-50 | A read command is answered with the addressed cell. |
| `Host.WriteIsServed` | module/cpu.c:60-63 | A write command stores its argument in the addressed cell and nowhere else. |
| `MailboxLinks.ServedIsAnswer` | module/cpu.c:25-38 | The CPU behind the transports does to registers and memory what it does in the transition system. |
| `MailboxLinks.SlicesAgree` | module/cpld_sdp.c:162-189 | The slices of module Mailbox are those the link transports. |
| `MailboxLinks.CommitsAreSlices` | module/cpld_sdp.c:186-189 | The k-th slice of an access in the transition system is the k-th commit of a byte sent over the pins. |
| `MailboxLinks.BytesAreDistinct` | module/cpu.c:42-66 | Bytes and their four slices correspond one to one. |
| `MailboxLinks.ConstantsAgree` | module/cpu.c:32-62 | The commands are 0x8 and 0xC, the bit polled is 0x08, and there are 10000 polls. |
| `MailboxLinks.KicksAgree` | module/cpld_sdp.c:209-214 | The kick in the transition system is the one the pin transports send. |
| `MailboxLinks.KickRuns` | module/cpld_sdp.c:205-219 | From any state with right locks, a kick and the two moves of its thread store in the registers what the kick of the pins stores, change no other register, memory, CPU lock or bookkeeping, and take and free the CPLD lock. |
| `MailboxLinks.WideKicksAgree` | module/cpld_flash.c:23-28 | The byte-wide kick in the transition system is the byte the flash and MDIO backends write. |
| `MailboxLinks.WideKickLosesCall` | module/cpld_flash.c:23-28 | A byte-wide kick while a call waits takes its command back: the call ends without a timeout, a read with the old HOST_DAT, a write with nothing stored. |
| `Lfd.Converges` | module/lfd.c:105-156 | With fixed cables, not both down, a segment is in the state that matches them after n periods if and only if n is at least an explicit distance, at most LFD_MAX_CHECK_COUNT + 3 from any reachable state; it never leaves. |
| `Lfd.FaultIsPropagated` | module/lfd.c:105-156 | One cable down: within eight periods exactly the companion port is held down. Both up: within 2 periods neither is. |
| `Lfd.DarkSegmentWaits` | module/lfd.c:105-156 | Both cables down: commands never change, and the probing state runs out its counter into state 0. |
| `Lfd.TickKeepsSane` | module/lfd.c:105-156 | State in 0..4, counter in 0..LFD_MAX_CHECK_COUNT and full outside state 4, port 1 held down exactly in state 2 and port 0 exactly in state 3; so the error branch is unreachable. |
| `Lfd.TickExactly` | module/lfd.c:105-156 | One period, for any links the ports may show and whatever was commanded before: without a fault found, exactly one linked port means that each port is commanded as its companion is linked; in state 2 only port 0 counts and in state 3 only port 1, and its link brings both ports up into state 4; state 4 commands nothing and ends with both links or after five periods. |
| `Lfd.TickIsCautious` | module/lfd.c:105-156 | From a sane segment and for any links, a port that was up is taken down only if it shows link and its companion does not, and one held down is let up exactly when the link of the faulty port is back. |
| `Lfd.Driver.UpdateSegment` | module/lfd.c:105-156 | The switch with its fall-through is one step of the state machine on that segment, commands included, and touches no other segment. |
| `Lfd.Driver.UpdateActive` | module/lfd.c:96-103 | One period is one step of every active segment, each by itself; inactive ones are untouched. |
| `Lfd.Driver.Start` | module/lfd.c:60-74 | Sets the segment's bit, starts it afresh and keeps the flag right. Broken off by a signal, the flag is right exactly if the segment was on or LFD was active. |
| `Lfd.Driver.Stop` | module/lfd.c:76-94 | Clears the bit, commands both ports up, changes nothing else of any segment and keeps the flag exactly when some segment is on. Broken off by a signal, it commands nothing, and the flag is right exactly if the segment was off or another one is on. |
| `Lfd.Driver.constructor` | module/lfd.c:39-46 | Nothing is active at first, and every segment is in state 0 with both ports up. |
| `Attributes.AttributesAreVariables` | module/api.c:53-125 | After any run of settings of the four attributes on four segments, accepted or not, copper or fiber, mixed with fiber port commands, a get returns the last accepted value if and only if that value fits in a byte. |
| `Attributes.EncodingRoundTrip` | module/api.c:53-103 | An accepted value is read back from the register if and only if it is below 256, whatever the register held. |
| `Attributes.AcceptedExactly` | module/api.c:53-92 | A current mode is accepted if and only if its low byte is below 6 or 0x70, a default mode if and only if that is below 6, a power-off mode if and only if the whole value is 0 or 1, a scaler always. |
| `Attributes.FieldsWritten` | module/api.c:68-103 | What an accepted value below 256 leaves of a mode register, field by field: copper takes the byte; a fiber current mode sets bit 7, puts the value at bit 3, clears bit 2 and keeps the two enables, but 0x70 makes the byte 0xF0; a fiber default mode sets bit 7 and both enables. |
| `Attributes.WideValuesWritten` | module/api.c:68-103 | What the larger values that pass the check leave of the registers. |
| `Attributes.PowerBitExactly` | module/api.c:213-223 | A power-off mode sets or clears bit 4 of a fiber register and bit 0 of a copper one as asked, and the other seven bits stay. |
| `Attributes.BytesRead` | module/api.c:59-92 | What the getters make of any byte, whoever wrote it. |
| `Attributes.CellsAreDisjoint` | module/api.c:14-37 | No two attributes or segments share a register. |
| `Attributes.SegmentsAreBlocks` | module/api.c:14-37 | The six registers of a segment lie in a block of its own, fiber default, current mode, copper default and power-off mode in that order; the scaler of segment s is register s. |
| `Attributes.LinesFollowCommands` | module/port.c:51-87 | For every run of port commands and attribute settings: which register is in charge of a line and the line's bit in either are moved by the commands meant for that line and by nothing else; the companion line, other segments and other attributes have no effect, and the swap of port numbers is respected. |
| `Attributes.LastCommandDecides` | module/port.c:51-87 | Once the default register is in charge it stays so, and under port commands alone the choice never flips; in both cases the line is enabled as last commanded, setting the default mode counting as a command to enable. |
| `Attributes.PortBitIsSeparate` | module/port.c:71-83 | A port command moves one enable bit: the companion, the mode fields read by the getters and the choice of register stay. |
| `Attributes.PortLands` | module/port.c:51-87 | A fiber port command moves one bit of one register and nothing else of the segment's mode registers: of the default mode register exactly if the current mode register is at least 0x10, bit 0 for port 0 and bit 1 for port 1, on swapped cards the other way round. |
| `Attributes.ModesAndEnables` | module/api.c:68-103 | Setting a current mode always puts the default mode register in charge and keeps the enables of its own register unless the mode is 0x70; setting a default mode enables both ports there. |
| `Attributes.PortsKeepAttributes` | module/port.c:51-87 | A port command changes no attribute of any segment. |
| `Attributes.SettingReads` | module/api.c:53-125 | Setting one attribute of one segment changes the reading of no other. |
| `Attributes.SettingSwitches` | module/api.c:68-103 | A setting moves the enables of a line only by a current mode, which puts the default register in charge, or a default mode, which enables both lines there. |
| `Attributes.PortSwitches` | module/port.c:51-87 | A port command switches exactly its line, in the register in charge. |
| `Attributes.Card.SetCurrentMode` | module/api.c:68-78 | -EINVAL with nothing changed, or the encoded value in the segment's register, in one store. |
| `Attributes.Card.GetCurrentMode` | module/api.c:59-67 | Reads the attribute as the encoding laws define it and changes nothing. |
| `Attributes.Card.SetDefaultMode` | module/api.c:93-103 | -EINVAL with nothing changed, or the encoded value in the segment's register, in one store. |
| `Attributes.Card.GetDefaultMode` | module/api.c:85-92 | Reads the attribute as the encoding laws define it and changes nothing. |
| `Attributes.Card.SetTimeoutScaler` | module/api.c:121-125 | The value in the segment's register, in one store. |
| `Attributes.Card.GetTimeoutScaler` | module/api.c:116-120 | Reads the attribute and changes nothing. |
| `Attributes.Card.SetPowerOffMode` | module/api.c:213-223 | -EINVAL with nothing changed, or the one bit of the segment's register that `PowerBitExactly` names set as asked, in one store. |
| `Attributes.Card.GetPowerOffMode` | module/api.c:204-211 | Reads that bit and changes nothing. |
| `Attributes.Card.FiberPortSet` | module/port.c:51-87 | The enable bit of the possibly swapped line, in the register that counts, is as commanded; when the default register counts, two stores are made, of that register and then of the current mode as it was, else one. |
| `CopperPort.Port.PortSet` | module/port.c:89-107 | The control register and the write that may still come are as `After` says for the transactions answered in time and for a write left over from earlier, which may be carried out before it is replaced; other PHY registers change only by such a late write, and of the LED register only the four bits. |
| `CopperPort.RunsObey` | module/port.c:89-107 | Any run of port commands whose reads are answered, whatever becomes of the writes and however late they are carried out: the other control bits stay, the port is as the last command asked exactly if its write was answered or the port was so already, and what may still come is as it asked. |
| `CopperPort.LateWriteExactly` | module/port.c:89-107 | A late PHY write is harmless to the next command if and only if: that one's write is not answered and the late one changes nothing; or its read is answered and the late one changes at most the power-down bit; or only its write is answered. |
| `CopperPort.CommandedExactly` | module/port.c:89-107 | The port obeys exactly if the PHY answers the write (or it was in that state already); the other control bits survive exactly if it answers the read too, not the write, or there were none: after a timed-out read the register is rewritten from zero, with no other bit set. |
| `CopperPort.CommandDecodes` | module/port.c:25-40 | The command words carry operation, register and data without overlap. |
| `CopperPort.Port.PhyRead` | module/port.c:22-36 | 0 and the register exactly if the answer comes within 200 polls, else -1 and the caller's value; no register changes but by a command given up earlier. |
| `CopperPort.Port.PhyWrite` | module/port.c:37-49 | 0 and exactly that register set if the answer comes within 200 polls, else -1 with the command left behind; nothing else changes but by a command given up earlier. |
| `Discovery.ScanFindsTheCards` | module/main.c:29-109 | A scan that goes through fills slots 0 to maxcard - 1, maxcard at most MAX_CARD, with exactly the tries that find a card whose CPLD answers, in order: the devices at the right ports under the segment swap, each port with a network device, its own if there is one. Of the other slots only the next one holds network devices, at just the ports left behind by rejected and unfinished cards. A try is what the cursor of the enumeration, which the swap moves back, lets the loop take for a card. |
| `Discovery.CardsAreFoundExactly` | module/main.c:63-84 | The finished tries of a table entry are the cards that are there, each once and in order, if and only if the entry does not rewind (swapped segments and more than two ports) or has too few functions for a second try before the first card is passed; with four ports: fewer than six. |
| `Discovery.CardsAreApartExactly` | module/main.c:34-107 | Accepted cards never share a function, whatever CPLDs answer, if and only if no table entry of a known interface rewinds and has that many functions. |
| `Discovery.SlotsShareExactly` | module/main.c:34-107 | After a scan that goes through, two slots have a device in common if and only if their tries come from the same table entry and overlap. |
| `Discovery.ScanSucceedsExactly` | module/main.c:47-62 | The scan goes through if and only if no try follows the fourth accepted card (even one that would be rejected or never finished) and no function tried lacks its network device at a port where nothing is left over from a rejected or unfinished card; the first try to violate this decides between -E2BIG and -ENXIO. |
| `Discovery.TooManyExactly` | module/main.c:47-50 | -E2BIG is returned if and only if there is a fourth accepted card, reached without a missing network device, and either a function comes after it or it rewinds, so that its own last functions are seen again. |
| `Discovery.FollowedExactly` | module/main.c:35-38 | A try is followed by another one if and only if a function of the system comes after it or it finished a card that rewinds. |
| `Discovery.SwappedCardsMultiply` | module/main.c:69-82 | n four-port cards with swapped segments, all working and alone in the system: one is found as one, two as three, and three or more end the scan with -E2BIG. |
| `Discovery.TwoSwappedCards` | module/main.c:69-82 | The three cards that two are taken for have functions 2 3 0 1, 4 5 2 3 and 6 7 4 5 at their ports. |
| `Discovery.SwappedLastFails` | module/main.c:47-50 | Three two-port cards and a swapped one in fourth and last place end the scan with -E2BIG, although no function comes after the fourth card. |
| `Discovery.RejectedCardLeavesNetDevice` | module/main.c:86-89 | The leftovers matter: if of two two-port cards only the second answers and it has no network devices, it is accepted with those of the first. |
| `Discovery.TwinInvolutes` | module/main.c:73-81 | The segment swap is an involution that moves every port but those whose twin is off the card. |
| `Discovery.SwapExactly` | module/main.c:69-82 | Only ports of the two swapped models change places, of four ports the first two with the last two, and only then does the enumeration go back. |
| `Discovery.Driver.Finish` | module/main.c:64-84 | The in-place swap loop arranges both columns of the card by that involution, and leaves the cursor of the enumeration, its temporary, on the device that the last exchanged lower port held. |
| `Discovery.Driver.Place` | module/main.c:38-107 | One round of the inner loop: one step of the scan, with its four outcomes, and where the enumeration goes on. |
| `Discovery.Driver.Enumerate` | module/main.c:34-107 | The inner loop over `pci_get_subsys` with its moving cursor terminates and makes exactly the tries of the table entry. |
| `Discovery.Driver.Init` | module/main.c:29-111 | The nested loops make all tries of the system in order; -E2BIG, -ENXIO or 0 as the scan ends, and -ENXIO when no card was found. |
| `Discovery.TriedIsWanted` | module/cpld_validate.c:35-85 | The search tries all combinations the comment promises (every port; every segment straight and reversed; every port with both MDIO addresses) and nothing else. |
| `Discovery.TriedInOrder` | module/cpld_validate.c:53-85 | The search in closed form: how many pairs are tried and which one is the k-th, ports in order, address 0x01 before 0x1E, each segment straight before reversed. |
| `Discovery.ChosenAnswersFirst` | module/cpld_validate.c:50-86 | If some candidate answers, the control ports are the first one in the order of the search that does. |
| `Discovery.Driver.Validate` | module/cpld_validate.c:38-87 | 0 if and only if some candidate answers, 1 if none, -1 for an unknown interface; the control ports of no other card change. |
| `Discovery.Driver.ValidateAt` | module/cpld_validate.c:55-84 | The candidates of one port, in order, until one answers. |
| `Spi.SpiPort.ProgramAndReadBack` | module/spi.c:194-248 | Through pulses, bytes and instructions: after 32 words are loaded and the page written at a 32-aligned offset below 4096, reading any offset gives the loaded word inside that page and the old word outside it. |
| `Spi.TransmitSetsSlice` | module/spi.c:134-144 | Over the pins a slice of SPI_CTL is set and no other. |
| `Spi.SpiPort.Tx` | module/spi.c:115-149 | Through the slice transfers of the pins: the slave, which takes the level MOSI had before each rising edge, receives exactly the byte sent, most significant bit first, and the clock is low again. |
| `Spi.SpiPort.Rx` | module/spi.c:79-114 | Through the slice transfers of the pins: returns exactly the byte shifted out, first bit first; the slave meanwhile receives eight copies of the MOSI level; the clock is low again. |
| `Spi.PulseCarriesBit` | module/spi.c:128-145 | One clock pulse carries one bit in each direction. |
| `Spi.BitsRoundTrip` | module/spi.c:124-146 | A byte is the number its eight bits spell. |
| `Spi.FrontIsValue` | module/spi.c:100-105 | Shifting in eight bits spells the byte. |
| `Spi.ThreeBytes` | module/spi.c:174-176 | After three bytes from an idle engine the answer of the instruction is ready to be shifted out. |
| `Spi.FourthByte` | module/spi.c:158-161 | The fourth byte executes the instruction and leaves the engine idle. |
| `Spi.SpiPort.Init` | module/spi.c:11-49 | From any line levels and in the middle of any byte: CSR's lowest slice is 2 and the rest of it as before, the reset line has gone up and through two pulses, clock low, MOSI as before, engine restarted, no memory changed, lock taken. |
| `Spi.SpiPort.Exit` | module/spi.c:50-78 | Clock low, MOSI and CSR as before, the reset line has made one pulse and ends low, engine restarted and programming disabled, no memory changed, lock released. |
| `Spi.SpiPort.EnterProgMode` | module/spi.c:156-164 | Programming is enabled and no memory changed. |
| `Spi.SpiPort.ReadSig` | module/spi.c:166-181 | The three signature bytes, first one on top; the reset line made all pulses of start and end, programming is disabled again, no memory changed, lock free. |
| `Spi.SpiPort.PageLoad` | module/spi.c:194-216 | The page buffer holds the 32 words, program memory is unchanged. |
| `Spi.SpiPort.PageWrite` | module/spi.c:218-229 | Exactly the page containing the offset (modulo the memory size) becomes the buffer. |
| `Spi.SpiPort.ProgRead` | module/spi.c:231-248 | The word at the offset (modulo the memory size); no memory changed. |
| `Spi.PageAddress` | module/spi.c:222-236 | The address bytes cut out of an offset meet again in the AVR as that offset and its page. |

## Left out

- PinTransport.PinBus.Write: a strike during the final check of directions can move the strobes and store once more; that this is at most one slice for each such strike is claimed, which slice is not; under strikes other registers are framed only by the log, since a failed attempt can store a slice elsewhere when only one port was reset; and after an insidious strike nothing is claimed of the byte.
- PinTransport.PinBus.Read: likewise.
- PinTransport.PinBus.Kick: the final repair runs after the lock is released; what it does to another thread's transfer is stated write by write (`PinView.StaleMendExactly`, `PinView.HiddenResetExactly`), but the transfers themselves are modelled without it.
- Atomic context, where `cpld_lock` gives up and its callers go on without the lock: only process context is modelled.
- Liveness of the spinning locks and of `set_kick` under an unfair scheduler.
- Interrupting `lfd_update_segment` by `lfd_start` or `lfd_stop`: ticks, starts and stops are atomic steps.
- Two setters or port commands at once: their read-modify-write spans two CPU transactions, and their laws are sequential.
- Host.Card.Read: the CPU looks between whole register accesses; only module Mailbox has it look between slices.
- Host.Card.Write: likewise.
- Real time: `udelay`, `msleep`, `msec_delay` and the period of the LFD thread.
- The LFD thread itself, waking it, `lfd_init` and `lfd_deinit`.
- `ixgbe_port_set` and the choice between it and `copper_port_set`: the first lives in a driver that is not part of this model.
- `fiber_status_get`, `port_get`, relay status, heartbeat, kick-get, version and the constant card attributes: each is settled by reading one branch.
- Reading the card's identification registers after it is accepted, and everything `niagara_init` does once the cards are known.
- procfs, sysfs, the CPLD device files, the user-space utility and scripts: plumbing and number parsing.
- EEPROM access, fuse and lock bits, chip erase and `firmware_upgrade`; and that a flash page must be erased before it is written: a page write is a plain store.
- Register bits beyond those the driver uses, and reads with side effects.
