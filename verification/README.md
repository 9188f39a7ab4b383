# Open-GBFlash firmware: a verified model

Open-GBFlash is cartridge reader and writer firmware for the CH579, with a host class for FlashGBX.
This project models its protocols and its fast paths in Dafny and proves what they promise. Read the
modules in this order.

**USB endpoint 2 (`src/usb.c`).** `TxQueue` says what bulk IN is for, with windows, toggles and
counters taken away: a queue of bytes that wait, are staged, and reach the wire. It carries the
theorems about whole runs: nothing is lost, repeated or stale in any interleaving, nothing deliverable
is left behind an idle endpoint, and `bl_usb_tx_direct_sent()` counts the region bytes on the wire.
`Transfers` keeps the packets on the wire one by one and shows where the host's transfers end: a full
last packet is always closed by an empty one, and an empty one is sent for nothing else;
`HostTransfers` carries that to every run of the whole link.
`TxPort` and `TxEngine` are the driver as classes: two windows chosen by the data toggle, the staging
ring, the nominated region, the pipelined path that clears the transfer flag before it refills the
freed window, the lean counter and the shadow toggle. Every method is proved to be a step of the
queue. `RxEngine` is bulk OUT: the ring with 16-bit indices, credit, and both copy orders. `Ep2Spec`
says what each operation of the endpoint changes and what both ends can rely on; `Ep2Link` puts the
two directions on one transfer flag together with a host that alternates its PIDs and loses
handshakes, and proves that every operation moves like that. `Run` executes any schedule of host, SIE,
interrupt and thread operations, flushes and resets included, and returns the states it passed
through. `Ep2Ctrl` is the unlocked read-modify-write of R8_UEP2_CTRL with a transaction completing
before any access.

**The byte protocol (`src/proto.c`).** `Device` and `Commands` are the session record and the command
table. `Framing` is the parser as a function of one byte, and shows that its state-dependent framing
is exact: every byte stream is a list of whole commands and at most one unfinished one, and exactly
those are carried out. `Effects` says what a command does, from the bytes the host sends: the host's
encoders undo the firmware's decoders, and every field a command may write, every request it raises
and every answer is named. `Parser` is the static record with its arrays, its two intakes, and the loop
that mixes them.

**Streamed programming (`src/main.c`).** `Streaming` programs a block while it arrives, against a chip
that is any function of what it has been asked.

**The LK seam (`src/lk_glue.c`) and the 5 V rail.** `LkSeam` follows a routed command through
admission, LK's own reads, refusal and the substituted status byte; `MainLoop` is the receive loop
with both dispatchers; `VoltageRail` runs the parser, the drains and routed commands against the pins.

**Bus paths and arithmetic.** `AgbRead` (grouped auto-increment reads, publication), `ReadPath` (such
a read from cartridge to host, over endpoint 2), `Publishing` (the DMG, save and 3D-page reads),
`DmgBuffer` (five builds of the AMD buffer load), `Eeprom` (serial frames), `Crc` (slice-by-4),
`Timebase` (milliseconds without a divide), `ReadRom` (the pipelined host read and its memo), `Bits`
and `Bytes`.

## Configuration

`FW_USB_IRQ`, `FW_USB_CDC`, `FW_TX_DIRECT`, `FW_TX_PIPELINE` and endpoint double buffering are on and
the packet size is 64, as the Makefile ships them; `FW_TX_REWIND` is off. `FW_USB_ISR_LEAN`,
`FW_USB_TX_TOG_SHADOW` and `FW_RX_DBUF` are parameters, so both settings of each are covered (shipped:
on, on, off). `FW_AGB_LEAF`, `FW_CRC32_SLICE4`, `FW_DMG_SKIP_FF`, `FW_WRITE_STREAM` and
`FW_DMG_WRITE_STREAM` are on as shipped, and so are `FW_DMG_TX_DIRECT`, `FW_DMG_READ_PUB`,
`FW_SAVE_TX_DIRECT` and `FW_M3D_TX_DIRECT`. `FW_AGB_READ_BATCH` and the DMG shadow builds are modelled
although they ship off.

What is assumed of the hardware: a set transfer flag holds the SIE off; a toggle flips once per
accepted transaction; the transmit toggle names the window the next IN reads and the receive toggle
the window the next OUT writes; a retransmitted OUT is acknowledged with TOG_OK clear.

Side conditions of the endpoint theorems: each publication is a multiple of 64 or the whole region;
nothing is queued while a region is nominated; a flush or reset falls between calls of `bl_usb_rx()`;
a session flush, which leaves the toggles alone, does not fall between a lost handshake and its retry.

## Where the code does not do what one might expect

* The short-packet guard (src/usb.c:708-711) returns with T_RES still ACK. `DrainsUnlessUndisciplined`
  proves that the link comes to rest with everything delivered whenever the last publication was whole
  packets or the whole region, and that it replays an old window exactly when it was neither and
  something was on its way. `StepSixteenReplays` is such a run. `CartRead` and `Publishing` show which
  reads publish that way: as shipped all do, save a 3D page of odd length whose even part is not
  whole packets, since its last halfword is a mark of its own. With the step pinned at 16 bytes the
  DMG and save reads and AGB reads in Single and MemCpy mode are fit only up to 16 bytes; Stream is
  fit at every length, because a leaf call reads at least its latch group (`DefaultsFit`).
* `usb_session_flush()` keeps the toggles. If the host took a packet and its handshake was lost, the
  next packet carries a PID the host has seen, and what it holds is lost (`FlushNeedsSettled`,
  `UnsettledFlushLoses`; `UnsettledIsReached` gets there from power-on). A bus reset has no such condition.
* A variable state restored on an open port goes past the host's memo, which stays true exactly if the
  blob puts back what the memo says is there (`Restore`). `ReadRom` ends in success with
  none owed exactly if the device holds the length one read is taken to have: a shorter one makes the
  read fail, and a longer one that passes leaves the reads' count times the difference owed.
* In the build that ships (`FW_USB_ISR_LEAN` on, `FW_RX_DBUF` off) a retransmitted OUT closes the
  endpoint and the pumps do not open it again; the next `bl_usb_rx()` does. The contract of
  `RxEngine.Engine.Service` says so.
* `include/proto.h` says a 0x00 straight after 0xC8 is the page terminator and every other one is
  acknowledged. A command with a payload does not clear the mark, so the terminator is also taken
  after 0xC8 and any number of those (`ResyncUnanswered`, `ResyncAcrossPayload`).
* `SET_VAR_STATE` writes the live write-enable selector into `flash_we_pin` as well, so a restore is
  the identity except there (`VarStateRoundTrip`).
* `CALC_CRC32` of an odd length in AGB mode hashes one byte that was in the reply buffer before
  (`CartCrc`).
* A merged run of reads leaves ADDRESS where separate reads would exactly when TRANSFER_SIZE is even or
  there is one read (`BatchAddress`).

## Model

| member | source | states |
|---|---|---|
| TxQueue.PumpKeeps | src/usb.c:692-799 | Pumping moves bytes from the ring, else the region, into staged packets without adding, losing or reordering any, two at once where two full ones wait; with nothing waiting a full last packet is closed by an empty one and anything else parks; it changes nothing exactly when the short-packet guard holds |
| TxQueue.NominateKeeps | src/usb.c:803-826 | Nominating or withdrawing a region keeps what the SIE may still send and drops only what was published and not staged |
| TxQueue.PublishKeeps | src/usb.c:829-836 | A publication appends exactly its bytes to what is owed and leaves no deliverable byte behind an idle endpoint |
| TxQueue.CompleteKeeps | src/usb.c:1440-1501 | A completion keeps the invariant and the ledger unless the guard held the pump; then the endpoint replays |
| TxQueue.RefilledKeeps | src/usb.c:1476-1487 | The refill after the bus was released keeps the queue sound and in order |
| TxQueue.StepKeeps | src/usb.c:692-945 | Every producer, SIE and service step keeps the invariant, only extends the wire, and adds to the ledger exactly what it accepted |
| TxQueue.EveryRunDelivers | src/usb.c:692-901 | In every interleaving, wire plus staged plus waiting bytes are what was accepted, in order |
| TxQueue.IdleMeansDelivered | src/usb.c:1325-1340 | No lost wake-up: with the endpoint idle and no kick due, everything accepted is on the wire |
| TxQueue.DrainsUnlessUndisciplined | src/usb.c:708-711 | Left to itself the link ends idle with all delivered, or replaying; it replays exactly if something was on its way and the last publication was neither whole packets nor the whole region |
| TxQueue.StepSixteenReplays | src/usb.c:708-711 | A run that replays, from power-on: the marks 16, 32, 48, 64 and 80 of a 128-byte region |
| TxQueue.WithdrawalCuts | src/usb.c:803-826 | What a withdrawal leaves is the front of what was owed |
| TxQueue.SentCountsDelivered | src/usb.c:839-847 | From nomination on, the sent counter plus a latched completion is the number of region bytes on the wire, and they are the region's first ones |
| Transfers.EveryTransferEnds | src/usb.c:758-798 | From power-on, in every schedule and whatever is published: the packets since the last boundary are the wire since then, none is over 64 bytes, an empty one only follows a full one, and once the endpoint is idle the last one was not full |
| Transfers.EmptyExactlyCloses | src/usb.c:784-790 | At every step of every run an empty packet is staged exactly when a full last packet completes with nothing staged, queued or published behind it |
| TxPort.UsbCopy | src/usb.c:298-366 | Blocks, words and bytes together copy exactly the range and nothing else, at every alignment |
| TxPort.Port.StagePair | src/usb.c:712-741 | Two full packets lie in the two windows in the order the toggle will read them, under one T_LEN |
| TxPort.Port.Release | src/usb.c:1456-1475 | The shadow prediction and the hardware toggle name the same freed window, never the one the next IN reads |
| TxPort.Port.FillByte | src/usb.c:1477-1482 | Each byte of the refill goes to a window the SIE may not read |
| TxPort.Account.Pop | src/usb.c:1443-1453 | The lean counter and the stage queue give the same credit: a region packet its length, anything else nothing |
| TxPort.Account.PushPair | src/usb.c:726-731 | Priming books two region packets in either build |
| TxEngine.Engine.TxPump | src/usb.c:692-799 | The driver's pump is the queue's pump on its own windows, ring and counters; with nothing waiting it arms an empty packet exactly if the last one was full, and parks otherwise |
| TxEngine.Engine.DirectBegin | src/usb.c:803-826 | Nomination on the driver state |
| TxEngine.Engine.DirectPublish | src/usb.c:829-836 | Publication and kick on the driver state |
| TxEngine.Engine.DirectEnd | src/usb.c:850-855 | Withdrawal on the driver state |
| TxEngine.Engine.StoreChunk | src/usb.c:862-889 | One locked chunk takes exactly what fits the linear buffer and appends it |
| TxEngine.Engine.Kick | src/usb.c:892-900 | The closing kick starts an idle endpoint |
| TxEngine.Engine.SieSend | src/usb.c:669-674 | What leaves the window the toggle names is the oldest staged packet, in full |
| TxEngine.Engine.Complete | src/usb.c:1440-1501 | Completion is the queue's; when the bus is released the refilled window is not the next one sent |
| TxEngine.Engine.RefillByte | src/usb.c:1477-1482 | Between any two bytes of the refill the queue is unchanged whatever the SIE does |
| TxEngine.Engine.RefillDone | src/usb.c:1479-1487 | The refilled window joins the packet in flight |
| TxEngine.Engine.OtherService | src/usb.c:1325-1349 | The pumps restart a stalled endpoint |
| TxEngine.Engine.SessionFlush | src/usb.c:928-945 | A flush owes nothing and keeps the toggle |
| TxEngine.Engine.BusReset | src/usb.c:1190-1217 | A reset owes nothing and returns to DATA0 |
| RxEngine.WrapKeepsSlots | src/usb.c:485-500 | Indices that wrap at 65536 keep addressing the same ring slots |
| RxEngine.Ring.Put | src/usb.c:563-580 | A byte goes behind everything the ring holds, across wrap |
| RxEngine.Ring.Drop | src/usb.c:1554-1564 | The tail update drops exactly the oldest bytes |
| RxEngine.Engine.SieOut | src/usb.c:1428-1437 | An in-sequence packet is accepted once; a repeated one changes neither toggle nor what was accepted |
| RxEngine.Engine.CreditUpdate | src/usb.c:507-533 | OUT is open exactly if a full packet fits beyond the one pending |
| RxEngine.Engine.Service | src/usb.c:1398-1438 | The whole packet is taken, once, and credit is exact again, except after a retransmission in the lean close-then-copy build |
| RxEngine.Engine.ServiceReleased | src/usb.c:1404-1426 | With the bus released first, window, length and credit were settled before, so the copy is safe |
| RxEngine.Engine.CopyByte | src/usb.c:563-580 | The window being copied is never the one the SIE writes |
| RxEngine.Engine.CopyDone | src/usb.c:581-583 | The packet becomes visible whole; neither clamp ever cut it |
| RxEngine.Engine.TakeDone | src/usb.c:1546-1564 | What `bl_usb_rx()` returns is the oldest content, and successive results concatenate to the accepted packets |
| RxEngine.Engine.Credit | src/usb.c:1566-1569 | After a take the endpoint is open exactly if a full packet fits |
| RxEngine.Engine.Flush | src/usb.c:928-945 | A flush empties the ring and opens the endpoint; only a reset clears the toggle |
| RxEngine.FlushInsideTakeBreaks | src/usb.c:1548-1564 | After a flush inside `bl_usb_rx()` the occupancy is out of range exactly if fewer bytes arrived before the tail update than were being taken, and the ring holds just what arrived exactly if nothing was |
| RxEngine.TailAfterFlush | src/usb.c:1548-1564 | Otherwise the first bytes that arrived are skipped unread, as many as were being taken |
| Ep2Spec.FrontStays | src/usb.c:675-690 | No step but a send or flush moves the packet the host may already have |
| Ep2Spec.CutsTail | src/usb.c:803-826 | A withdrawal, flush or reset cuts a tail off what is owed and never touches what the host has |
| Ep2Spec.FlushNeedsSettled | src/usb.c:924-945 | A flush that keeps the toggles keeps both ends in step exactly when no handshake is outstanding |
| Ep2Spec.UnsettledFlushLoses | src/usb.c:924-945 | Otherwise the first packet of whatever is queued next reaches the wire and the host ignores it |
| Ep2Spec.UnsettledIsReached | src/usb.c:892-900 | Such a state is three operations from power-on |
| Ep2Link.Link.OutToken | src/usb.c:1398-1438 | A lost handshake and its retry deliver the packet once |
| Ep2Link.Link.InToken | src/usb.c:1440-1475 | The host takes the next packet in order or ignores a repeat |
| Ep2Link.Link.Interrupt | src/usb.c:1367-1500 | The service routine does one of four things: pick up or drop an OUT, complete an IN, or pump for another endpoint; nothing else changes |
| Ep2Link.Link.Advance | src/usb.c:563-583 | One byte of the copy it was left in, or its end and the pumps, in either direction |
| Ep2Link.Link.Publish | src/usb.c:829-836 | Under any interrupt position, what is owed grows by exactly the published slice |
| Ep2Link.Link.TakeDone | src/usb.c:1546-1564 | What one call returns goes behind what earlier calls returned since the last boundary |
| Ep2Link.Link.SessionFlush | src/usb.c:924-945 | What was owed is withdrawn, what the host has and the toggles stay, OUT starts afresh behind what was accepted |
| Ep2Link.Link.BusReset | src/usb.c:1190-1217 | The same from DATA0 on both ends, whether or not a handshake was lost before it |
| Ep2Link.Link.InKept | src/usb.c:828-901 | The host's IN bytes are a prefix of what was queued or published and not withdrawn, and all of it once the endpoint is idle |
| Ep2Link.Link.OutKept | src/usb.c:1546-1571 | What `bl_usb_rx()` returned since the last boundary lies directly behind it in what the host sent, and is all of it once the receive side is at rest |
| Ep2Link.Run | src/usb.c:1367-1544 | In every schedule of host, SIE, interrupt, thread, flush and reset operations, in every build, each operation changes exactly what `Ep2Spec.Moves` says and both promises hold after each of them |
| HostTransfers.EveryTransferEnds | src/usb.c:784-790 | In every run of the link from power-on, lost handshakes, flushes and resets included, an empty packet only follows a full one, and whenever the endpoint is idle the host has everything on the wire and the last packet since the boundary was not full |
| Ep2Ctrl.Sie.Rmw | src/usb.c:391-444 | Wherever a transaction completes, the byte ends with the requested software bits and the SIE's toggles |
| Ep2Ctrl.UnguardedFailsBetween | src/usb.c:384-388 | Without the repair the byte is wrong exactly if a toggle-moving transaction falls between read and store |
| Device.VariableReadsBack | src/proto.c:130-262 | A variable reads back clamped or truncated as stored and no other moves, except the bank mirror |
| Device.VarStateRoundTrip | src/proto.c:279-359 | Saving in one state and restoring in another carries over exactly the listed fields |
| Device.OctetsInOrder | src/proto.c:52-73 | 32- and 16-bit numbers go out most significant octet first |
| Framing.Feed | src/proto.c:1089-1154 | Every byte keeps the parser's invariant; an open payload's declared length still stands |
| Framing.CommandFramed | src/proto.c:1089-1154 | A command on the wire is one dispatch and its reply, and the parser is idle at its end and nowhere inside |
| Framing.StreamFramed | src/proto.c:392-422 | A command list encoded under the evolving TRANSFER_SIZE is carried out command by command |
| Framing.EveryStreamIsCommands | src/proto.c:988-992 | Any byte stream is whole commands and at most one unfinished; exactly those are answered; idle exactly if nothing is left over |
| Framing.ParseFindsCommands | src/proto.c:794-829 | The commands a host meant are the ones found |
| Framing.RepliesCounted | src/proto.c:427-783 | Every path answers an exact number of bytes fixed by command and state |
| Framing.TerminatorAfter | src/proto.c:430-433 | The terminator mark is set exactly if the last command without a payload was 0xC8 |
| Framing.ResyncUnanswered | src/proto.c:678-689 | A bare 0x00 goes unanswered exactly then |
| Framing.ResyncAcrossPayload | include/proto.h:15-17 | A 0xC8, a restore and a bare 0x00 are legal from power-on and the 0x00 goes unanswered |
| Framing.BulkIsBytes | src/proto.c:1015-1087 | A payload run taken at once is the same bytes one at a time, dropped excess included |
| Effects.FollowsOpcode | src/proto.c:392-422 | How many argument and payload bytes follow each opcode, by number |
| Effects.PairsAt | src/proto.c:496-500 | The address and value pairs a host encodes are the pairs read back, wherever they lie |
| Effects.BatchLeaves | src/proto.c:838-857 | A 0xD4 list of up to 32 writes is left for the main loop pair by pair as sent; a longer one is refused and changes nothing |
| Effects.FlashCmdLeaves | src/proto.c:486-503 | 0xA7 leaves the six pairs sent, the command set, the method and both copies of the write-enable selector |
| Effects.BanksLeave | src/proto.c:906-922 | 0xB8 leaves up to eight bank-change writes as sent, clears them at count 0, and refuses more |
| Effects.CommandEffect | src/proto.c:427-955 | Any command in any state changes only the fields named for its opcode, and raises exactly the requests named; a payload too long to keep raises none |
| Effects.OneByteAnswers | src/proto.c:427-955 | A one-byte answer is the error byte exactly for the listed refusals, and the ACK otherwise |
| Effects.PingAnswers | src/proto.c:440-442 | Reply and challenge add up to 255, and nothing else changes |
| Effects.WriteLeaves | src/proto.c:505-531 | 0xB2 and 0xD1 leave the address and byte sent |
| Effects.ShortLeaves | src/proto.c:505-518 | 0xC2 and 0xD2 leave the address and halfword sent |
| Effects.CountLeaves | src/proto.c:538-543 | 0xA9 and 0xD5 leave the 32-bit count sent |
| Effects.SetThenGet | src/proto.c:574-581 | Setting a variable over the link and asking for any variable answers the stored value, the bank mirror, or the old value, in four octets |
| Effects.StateOnWire | src/proto.c:773-774 | The blob 0xAE answered, sent back with 0xAF to any state, restores exactly the listed fields |
| Effects.StatePut | src/proto.c:939-946 | 0xAF restores the blob sent; one of another version changes nothing |
| Effects.SaveLeaves | src/proto.c:873-903 | A save payload leaves its length, chip, EEPROM or flash selector, and DMG flag |
| Effects.ProgramLeaves | src/proto.c:786-871 | A program block starts its progress afresh, and its length is the payload sent exactly if it was accepted |
| Effects.DumpShows | src/proto.c:725-738 | After a payload that fitted, 0xE6 answers its length and its bytes |
| Effects.DumpKeeps | src/proto.c:1118-1125 | After any other command it answers the earlier length still |
| Effects.SettingsLeave | src/proto.c:550-560 | Step and latch overrides in units of 16 and 32 bytes, 0 for the default latch |
| Effects.TableLeaves | src/proto.c:585-621 | The mode commands and the pull-up commands write their one variable and no other |
| Effects.RailLeaves | src/proto.c:585-672 | Which of the mode, voltage and power commands move the 5 V request and the supply target, and how |
| Effects.PinLeaves | src/proto.c:629-640 | 0xF5 keeps mask and level, and moves the supply target exactly if bit 0 is set |
| Effects.RecordAnswers | src/proto.c:448-450 | 0xF4 answers the powered variable, 0xF6 zero, 0xCA outside AGB mode the eight bytes that say no RTC |
| Effects.InfoFields | src/proto.c:107-126 | The fields of 0xA1 and where they stand |
| Effects.EchoAnswers | src/proto.c:924-937 | 0xE7 answers the FNV-1a sum of the payload sent |
| Effects.FnvOfA | src/proto.c:928-931 | The published FNV-1a sum of a one-letter string |
| Parser.Parser.Feed | src/proto.c:1089-1154 | The in-place parser is the byte function |
| Parser.Parser.FeedBulk | src/proto.c:1015-1087 | Bulk intake takes only payload bytes and is the run of them |
| Parser.Parser.Receive | src/main.c:1990-2018 | Any mix of bulk and single bytes gives the state and replies of feeding the batch byte by byte |
| MainLoop.FrameIsWire | src/lk_glue.c:359-404 | What the seam takes for a routed command is its wire form, whatever follows it |
| MainLoop.RoutedStreamFramed | src/main.c:1980-2018 | Any list of commands, routed or not, each framed by the state the earlier ones left, is carried out command by command by whichever dispatcher has it |
| MainLoop.ListClear | src/main.c:1980-1990 | In such a list every routed command is whole when its turn comes |
| MainLoop.BatchAnswered | src/lk_glue.c:319-357 | A batch of n writes: in DMG mode LK has it and accepts up to 16, in any other mode the parser has it and accepts up to 32 |
| MainLoop.BatchReadAt | host/lk_glue_shim.c:117-144 | The pairs LK reads of a batch are the pairs the host encoded |
| MainLoop.Receive | src/main.c:1980-2018 | The loop over a receive batch sends and leaves exactly what that reading of batch and endpoint gives, with routed frames running on from the batch into the endpoint |
| Parser.Parser.Reset | src/proto.c:42-50 | A reset leaves an idle parser and keeps its buffers |
| Streaming.SerialCovers | src/main.c:1505-1545 | The serial form is consecutive chunks of the block in order, all full loads but perhaps the last, complete but for an odd byte, or up to the first timeout |
| Streaming.SinglesCovers | src/main.c:1531-1596 | Unbuffered, the operations are the units of the block in order, each at ADDRESS plus its index; only a DMG byte of 0xFF is passed over, and the list ends early only at a timeout |
| Streaming.FullChunkIsNext | src/main.c:1078-1082 | A full chunk that has arrived is the serial form's next chunk whatever comes later |
| Streaming.Programmer.Open | src/proto.c:786-792 | A new block forgets what an abandoned one left |
| Streaming.Programmer.AgbStreamPump | src/main.c:1057-1101 | The pump leaves the progress at a chunk multiple within what has arrived, on the serial form's history, with no full chunk waiting |
| Streaming.Programmer.DmgStreamPump | src/main.c:1402-1443 | The same for DMG |
| Streaming.Programmer.FlashProgram | src/main.c:1478-1596 | Finishing the block gives the operations, verdict and status of the serial form, or of the unit-by-unit one without a buffer, and the new ADDRESS |
| Streaming.Programmer.Close | src/proto.c:858-874 | The one reply byte is ACK exactly if every chunk retired; too long or unsupported blocks touch nothing |
| Streaming.Programmer.Block | src/main.c:1990-2015 | For any packets and any schedule of pumps the block is programmed as if it had been complete: method 2 with a usable buffer in loads of that size, anything else unit by unit |
| LkSeam.Seam.Recv | src/lk_glue.c:44-80 | Readers get handed-back bytes, batch and endpoint in order, and fill once cut short |
| LkSeam.Seam.Refuse | src/lk_glue.c:303-317 | Exactly the declared bytes are drained, then one error byte |
| LkSeam.Seam.Admit | src/lk_glue.c:319-357 | Commands over LK's bounds are refused; an admitted header is handed back unread |
| LkSeam.Seam.WriteFlashCmd | host/lk_glue_shim.c:117-144 | Pairs land at index 16 on, in range, as sent |
| LkSeam.Seam.Dispatch | src/lk_glue.c:359-404 | Used tail plus taken endpoint bytes are the declared frame, admitted or refused; one status byte, an error if refused or cut short |
| LkSeam.FrameAgrees | src/proto.c:392-422 | That frame is the one the command table declares |
| LkSeam.RoutesAre | src/lk_glue.c:162-196 | Which opcodes LK is handed, and that outside DMG mode it is handed none |
| LkSeam.RefusedExactly | src/lk_glue.c:285-296 | A batch is refused exactly if a store would be out of range, it is over the parser's limit, or its header never came; a save payload exactly if it would pass the buffer's end |
| VoltageRail.ExecuteMode | src/proto.c:585-609 | A command keeps the mode, selects DMG, or selects AGB with a 3.3 V request |
| VoltageRail.PayloadKeepsMode | src/proto.c:322-359 | No payload command, a var-state restore included, moves the mode |
| VoltageRail.Board.CartVoltage | src/cart.c:124-136 | 5 V needs request and DMG mode; the result tells whether the request was honoured |
| VoltageRail.Board.Drain | src/main.c:2107-2141 | The drains set the select from the standing request and the mode; power-off drops it, power-on re-applies it; the variable and the flag the host reads follow |
| VoltageRail.SettledHonours | src/main.c:2107-2141 | Whatever the turn: a power request moves the supply, and the select is then high exactly with the supply, a standing 5 V request and DMG mode; a voltage request alone sets it from request and mode; neither moves neither |
| VoltageRail.RailTurn | src/main.c:2107-2141 | Each of the mode, voltage and power opcodes in its turn leaves pins, mode and request as named |
| VoltageRail.PowerCycleInRun | src/main.c:2117-2141 | At any idle point of any run A3 A5 F2 ends with supply and select high, F3 drops both, and F2 raises both again |
| VoltageRail.Board.OneByte | src/main.c:2010-2141 | One turn of the byte loop is the parser's step, then the drains |
| VoltageRail.Board.LkDispatch | src/lk_glue.c:133-141 | A routed command leaves the select at its last rail request and never raises it outside DMG mode |
| VoltageRail.LkLeaves | src/lk_glue.c:266-278 | ADDRESS, the last bank and the status register come back from LK, and no other variable |
| VoltageRail.StaysSafe | src/main.c:2107-2141 | No byte, run, routed command or reset can leave the select high outside DMG mode |
| VoltageRail.AnyRun | src/main.c:1955-2141 | In every run each event does exactly what `Happens` says, and at every byte boundary the select is high only in DMG mode |
| AgbRead.Bus.Latch | src/cart.c:192-218 | The cartridge latches the low 24 bits of the address |
| AgbRead.ReadLeaf | src/cart.c:623-663 | For every length and group size the buffer holds the ROM halfwords from the address on, low octet first, and nothing else of it changes |
| AgbRead.BranchlessMinIsMin | src/cart.c:592-597 | The borrow mask, which `ReadLeaf` uses for the size of each group, computes the minimum for all 32-bit values |
| AgbRead.LeafBytes | src/main.c:1652-1673 | The mask form and the repeated addition give the same bytes per call |
| AgbRead.FitIsDisciplined | src/usb.c:708-711 | The marks that keep the transmitter's discipline are whole packets or the whole region |
| AgbRead.Reader.CartRead | src/main.c:1623-1808 | The reply, the ROM's halfwords from ADDRESS on with the low octet first, and the advance of ADDRESS are the same for every method, latch and step; only written bytes are published; all publications are fit exactly if a leaf call reads whole packets or the whole transfer |
| AgbRead.ImageHalves | src/cart.c:640-657 | The image holds the ROM's halfwords in address order, low octet first, and the pad of an odd length |
| AgbRead.Reader.MethodsFit | src/main.c:177-202 | Which read methods publish fit marks at the shipped settings, and which with the step pinned at 16 |
| AgbRead.DefaultsFit | src/main.c:177-202 | The shipped step and latches are fit at every length; with the step pinned at 16, Stream is too, and Single and MemCpy are only up to 16 bytes |
| AgbRead.Reader.ReadBatch | src/main.c:2253-2287 | A merged run reads the contiguous region lap by lap and restores TRANSFER_SIZE; when the host stops reading, the stalled lap does not advance ADDRESS and the rest is given up |
| AgbRead.BatchIsSeparate | src/main.c:2253-2287 | For even sizes that is the concatenation of the separate reads |
| AgbRead.BatchAddress | src/main.c:2270-2284 | ADDRESS, modulo 2^32, ends where separate reads leave it exactly for even sizes or one read |
| ReadPath.MovesOn | src/usb.c:1367-1501 | Whatever operation falls into a read, what is published of it stays the front of the image and what was owed before stays in front |
| ReadPath.ReadArrives | src/main.c:1623-1808 | In every interleaving, when the sent counter reaches the length the host has exactly the image behind what it had or was owed |
| ReadPath.CartReadArrives | src/main.c:1623-1808 | With `CartRead`'s marks and the reply as it stood at each of them, that image is the ROM's |
| ReadPath.FitIsTaken | src/usb.c:829-836 | A fit mark is taken whenever thread mode runs |
| Publishing.Publisher.DmgRead | src/main.c:817-928 | The reply is the bytes from ADDRESS; only written bytes are published, in order, never more than 256 at a time and in the end all of them; all marks, grains included, are fit exactly if the step is whole packets or covers the transfer |
| Publishing.Publisher.SaveRead | src/main.c:616-696 | The same for save memory, a step at a time |
| Publishing.Publisher.PageRead | src/main.c:763-813 | The same for a 3D page, and for an odd length exactly if its even part is whole packets too |
| Publishing.FromJoins | src/main.c:829-872 | Consecutive pieces are one run of addresses, across the 32-bit wrap |
| Publishing.FromAt | src/main.c:829-872 | Byte i of such a reply is what the bus answers i addresses on |
| Publishing.ToldMore | src/main.c:838-872 | One more step's marks keep the verdict on all of them |
| Publishing.PadMark | src/main.c:774-784 | The pad of an odd page is fit exactly if the halfword mark before it is whole packets |
| Bits.MaskRounds | src/main.c:1660-1667 | Masking low bits rounds down to a multiple of a power of two |
| Bits.PowerTest | src/main.c:1663-1663 | The usual test recognises exactly the powers of two |
| DmgBuffer.LoadPlain | src/cart.c:1375-1394 | The plain load strobes unlock pair, SA/25, SA/count-1, data run and confirm |
| DmgBuffer.LoadStrobes | src/cart.c:1375-1394 | The load strobe by strobe; an address below 2^16 goes out as it is |
| DmgBuffer.WriteShadow | src/cart.c:1270-1321 | The cached value is the latch wherever it is relied on, in every build |
| DmgBuffer.LoadShadow | src/cart.c:1325-1373 | What each shadow build strobes |
| DmgBuffer.FormsAgree | src/cart.c:1350-1364 | All builds strobe the plain sequence; the pointer walk exactly if the masked address does not carry |
| Eeprom.Send | src/cart.c:1661-1674 | The word goes out bit by bit, most significant first |
| Eeprom.CellIs | src/cart.c:1681-1686 | Addresses are masked to 64 words of the small part and 16384 of the large one |
| Eeprom.Write | src/cart.c:1724-1757 | A write frame changes exactly the masked word, to the data sent |
| Eeprom.Read | src/cart.c:1681-1719 | A read frame returns the masked word and changes nothing |
| Eeprom.RoundTrip | src/cart.c:1681-1757 | Write then read gives the same octets, every other word untouched, both address widths |
| Crc.TablesAre | src/main.c:273-275 | The table recurrence gives 16, 24 and 32 clocked bits |
| Crc.PolyIs | src/main.c:205-206 | The polynomial by its exponents |
| Crc.PolyInTable | src/main.c:205-239 | Row 128 of the table is the polynomial |
| Crc.KnownSums | src/main.c:516-570 | The published sums of nothing and of four octets of ones |
| Crc.TableStepIsOctet | src/main.c:506-512 | The table step is eight steps of the bitwise definition |
| Crc.SliceIsSum | src/main.c:482-499 | Four lookups are four bytes of the definition |
| Crc.Step | src/main.c:482-504 | The whole routine is the definition for every length and alignment |
| Crc.CartCrc | src/main.c:516-570 | In AGB mode the chunked walk sums the whole region for every even length, and one stale byte more for an odd one |
| Crc.DmgCrc | src/main.c:526-559 | In DMG mode it sums the whole region for every length |
| Timebase.Reciprocal | src/timebase.c:88-96 | The Q16 product fits 32 bits and is the quotient or one less |
| Timebase.Clock.Divide40 | src/timebase.c:82-99 | The reciprocal path divides exactly, with at most one correction |
| Timebase.Clock.TimeMs | src/timebase.c:62-112 | The fields are the mixed-radix digits of the cycles counted; exact exactly if calls are less than a lap apart |
| Timebase.DigitsUnique | src/timebase.c:33-36 | Equal cycle counts mean equal fields |
| Timebase.Run | src/timebase.c:62-112 | After any run of close enough calls the clock shows elapsed milliseconds modulo 2^32 |
| ReadRom.Session.SetVariable | hw_GBFlash.py:504-508 | Anyone's write of the two variables drops the memo |
| ReadRom.Session.Restore | src/proto.c:322-359 | A restore on the open port keeps the memo true exactly if its blob holds the remembered length and access mode, or is of another version |
| ReadRom.Session.Prepare | hw_GBFlash.py:424-442 | With a true memo the open device then holds the length, address and access mode, sent or remembered |
| ReadRom.Session.Pipeline | hw_GBFlash.py:451-480 | At most two unanswered opcodes; success means the replies in order; even replies cannot fail |
| ReadRom.Session.ReadRom | hw_GBFlash.py:401-482 | On success the buffer is that of one read at a time; success with none owed happens exactly if the device holds the length one read is taken to have, variables sent or skipped; with a true memo it does, and the memo stays true |

## Left out

- TxEngine.Engine: buffers and windows are sequence fields replaced byte by byte; copying in place through arrays is proved separately in `TxPort.UsbCopy`.
- Ep2Link.Link.SessionFlush: taken only when no handshake is outstanding and outside `bl_usb_rx()`; `FlushNeedsSettled` and `FlushInsideTakeBreaks` show what the two conditions are for.
- MainLoop.Receive: a routed command that is not whole, or is not one of the three `LkSeam` follows, ends the stream; the transmitter is live.
- Ep2Link.Link.BusReset: taken only outside `bl_usb_rx()`, for the second reason.
- Ep2Link.Link.Queue: taken only while no region is nominated, which is how the callers behave.
- TxEngine.Engine.TxPump: the register write inside it is atomic here; `Ep2Ctrl.Sie.Rmw` proves that the real one may be treated so.
- RxEngine.Engine.CopyByte: the two calls of the copy routine at the ring's end are one loop over masked indices.
- Framing.Feed: request arguments that the source keeps in separate cells share one field, since each request is drained before the next command.
- Framing.RepliesCounted: the eight bytes of 0xCA in AGB mode are placeholders the main loop overwrites.
- Streaming.Programmer.ProgramChunk: the unlock writes, status polls and bus cycles of one chunk are one operation; the strobes of the AMD load are in `DmgBuffer`.
- LkSeam.Seam.LkLoop: LK.c itself is not part of this model; three commands follow host/lk_glue_shim.c and the others answer an error, and the variable mirror is left out.
- Crc.TablesAre: the 1024 table literals are defined by their recurrence.
- Eeprom.Read: the selector is the one for the part fitted; a wrong selector is not modelled.
- ReadRom.Session: progress callbacks and device loss are left out.
- Timebase.Clock: SysTick start-up and the not-running case of `bl_time_ms()` return a constant and are left out.
- `fw_proto_tick()` appears as the reset it performs; its clock comparison is left out.
- Endpoint 0, descriptors, CDC line coding, PLL power-on, IRQ arming and the interrupt watchdog: register scripts and constant tables.
- Nop counts, pulse widths and assembler-time checks: only store order and edges are kept.
- Publishing.Publisher.Strobe: the bus cycles of DMG, save and page reads are one byte of memory each; a page read stalled by the host is not told apart.
- Save writes, RTC and the boot handshake: no protocol beyond a bus cycle each.
- The firmware updater, GUI code and `tools/`: outside the device's behaviour.
