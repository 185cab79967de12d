# A RISC-V virtual platform with a cryptographic coprocessor, verified

The repository joins an instruction-set simulator for a RISC-V core with an FPGA coprocessor for the
Chinese hash SM3 and block cipher SM4. The simulator reaches the coprocessor over a serial line. This
project models four parts of it in Dafny and proves what they keep.

* The coprocessor loop, clock by clock. `nice_core.v` collects twelve bytes, acknowledges them in
  three steps, computes, answers polls and sends a five-byte reply; `uart_tx.v` and `uart_rx.v` carry
  the bytes; `Bridge_Socket_Uart.cpp` and the drivers of `sm_tlm_uart` are the host. Clocked processes
  are classes with one method per edge, proved equal to next-value functions; the functions are proved
  to follow an abstract protocol. The end-to-end results are `Bridge.RunCalls` and, over the whole board on its
  two serial lines, `Bridge.OnSerialLines` and `Sm4Uart.OnSerialLines`: the host writes each request word as four
  frames with any gaps or none, and pauses between two writes until `uart_rx` rests.
* The cycle model of `timing.h`: the scoreboard against absolute time (`pipeline_clock.dfy`), the branch
  predictor against what its events alone foretell, the instruction cache against the addresses fetched.
* The software side of SM3 and SM4: array loops against the definitions of GB/T 32905-2016 and
  GB/T 32907-2016, decryption, key recovery, padding, and the permutation laws of the mixing maps.
* The trap and interrupt machine and the M extension of `iss.cpp`, and the 64-bit counter reads.

## Layout

| file | what it holds |
|---|---|
| `arith.dfy`, `words.dfy`, `bit_values.dfy`, `rotation.dfy` | integer arithmetic; words and bytes, their binary digits, rotations and their algebra |
| `nice_reference.dfy`, `sbox_rom.dfy`, `sbox_field.dfy` | the reference operations of `nice.h`, the S-box table of `Sbox.v` and the field inversion it holds |
| `nice_core.dfy`, `nice_protocol.dfy`, `reply_safety.dfy` | the coprocessor, its abstract machine, safety of its replies |
| `link.dfy`, `bridge.dfy`, `sm4_uart.dfy` | the link with arbitrary delays, the host, its drivers, and SM4 run through them |
| `serial_lines.dfy`, `device.dfy` | the host's frames and its sampling receiver, the board with either kind of wiring |
| `uart_tx.dfy`, `uart_rx.dfy`, `uart_link.dfy`, `uart_burst.dfy`, `handshake.dfy` | the serial modules alone, wired back to back, against frames that follow each other closely, and wired to the coprocessor |
| `pipeline.dfy`, `pipeline_clock.dfy`, `branch_predictor.dfy`, `instr_cache.dfy` | the cycle model |
| `mixing.dfy`, `sm3.dfy`, `sm3_hash.dfy`, `sm4.dfy` | the cryptographic software |
| `sm3_example.dfy`, `sm4_example.dfy` | the repository's own runs, which are the standards' examples |
| `interrupts.dfy`, `traps.dfy`, `muldiv.dfy`, `counter_read.dfy` | the simulator's trap machine and arithmetic, counter reads |

`dafny verify dfyconfig.toml` checks everything.

## What the code does that its promises do not say

* A host byte that reaches `nice_core` at the clock right after the transmitter falls idle can be lost. The
  exact condition, for every byte the host may send, is `Link.ByteTakenIffSettled`: it is taken if and only if
  the core has had the one clock it may still need. Two bytes fall into that clock: a poll while the twelve bytes
  are in but the state is still IDLE (`Link.EarlyPollIsLost`), and the first byte of the next request while the
  whole reply is out but the state is still TX_DATA (`Link.EarlyRequestIsLost`). With the real `uart_tx` the early
  poll cannot occur, since its busy signal outlasts the calculation (`Handshake.AckOutlastsCalculation`). With
  arbitrary delays the end-to-end result lets every host byte arrive after at least one silent clock; on the
  serial lines the frame itself takes care of that (`Bridge.OnSerialLines`).
* `uart_tx` keeps `o_state_0` high through the frame only if its input is held valid for a second clock;
  `nice_core` holds it.
* A single frame gets through the loopback exactly from 13 clocks a bit on (`UartLink.LoopbackNeedsThirteen`); below
  that the start check falls outside the start bit. The receiver's tolerance is stated exactly.
* The receiver turns to the next frame two clocks after a full frame time of its own, so the frames of a host that is
  not slower, sent without a gap, are taken later and later (`UartBurst.BurstToleranceIsExact`). At the board's 868
  clocks a bit one frame tolerates host periods of 821 to 923 clocks, the four frames of one `write` only 858 to 923
  (`SerialLines.BoardTolerance`).
* SM3 padding differs from the standard at lengths of 55 modulo 64 (one block too many) and from 2^29 on
  (the bit length wraps). It stays injective.
* A store to the last word of the address space never meets a load (the end of its range wraps to 0).
* Sub-word loads can make a run that starts later finish earlier, exactly when one of them hits a store in the
  earlier run only, one cycle apart (`PipelineClock.NeverEarlierExactly`); word loads cannot.
* The three-read counter sequence returns a value the counter passed however far it runs; that it is the
  value at one of the reads needs an advance of at most 2^32.
* The asserts of `switch_to_trap_handler` look at the privilege after it has been overwritten. What they
  were meant to guard is `Traps.EntrySaves`.

## Modelling decisions

* Each clock edge reads the registers from before it; the last nonblocking assignment to a register wins.
  `nice_req_inst` is held as its ten bytes. The bit counter of the serial modules has 4 bits and the baud
  counter 16; words are sequences of bits, least significant first.
* `SM4Write` requires the register order the drivers keep. Received bytes are a queue; one `read` takes at
  least one clock and returns nothing or the whole awaited answer. The four drivers share the body
  `Bridge.Custom3`, which they differ from by opcode and operands only; the parameter `garbage` is the
  uninitialised local of the first loop test.
* On the serial lines the host sends at its own bit period, with any gap, or none, before each frame of a `write`.
  After a `write`, where the drivers wait for an answer, its line idles until `uart_rx` is at rest.
  Its receiver locks on the falling edge, samples the middle clock of each bit at the board's rate, drops a start bit
  that is high there, and hands the byte over two clocks into the stop bit if the line is high.
* The scoreboard follows E203 timing. The simulator's `read` and `write` call `access_register`, and a result
  is written before its latency is added. The scoreboard's functions have unbounded cycle counts.
* The branch predictor and the instruction cache stall the scoreboard they are built with. The random number of a
  cache miss is a parameter.
* Rotation by 0 or 32 is the identity, as the shift on the host gives for the macro.
* Register fields have the widths of the RISC-V Privileged Architecture: two bits for mpp, one for spp.
  `iss.h` and the header of the control registers are not part of this model. In a nest each handler returns
  at its own level and writes no trap register; the interrupt lines may change at any instruction.
* Signed 32-bit values are integers of that range; every cast is written out.

## Model

| member | source | states |
|---|---|---|
| `SboxRom.SameTable` | DDR200T/Vivado2018.3/workplace_uart/uart/uart.srcs/sources_1/imports/uart/Sbox.v:1-90 | the hardware S-box and the table of nice.h are the same function on all 256 bytes |
| `SboxRom.InverseOfDataOut` | DDR200T/Vivado2018.3/workplace_uart/uart/uart.srcs/sources_1/imports/uart/Sbox.v:1-90 | the S-box has a left inverse, so it is one-to-one |
| `SboxRom.DataOutOfInverse` | DDR200T/Vivado2018.3/workplace_uart/uart/uart.srcs/sources_1/imports/uart/Sbox.v:1-90 | the same inverse is a right inverse, so every byte is a value of the S-box |
| `SboxField.SboxIsInversion` | DDR200T/Vivado2018.3/workplace_uart/uart/uart.srcs/sources_1/imports/uart/Sbox.v:1-90 | for every byte both tables hold the affine image of the inverse of its affine image in the field of 256 elements modulo x^8+x^7+x^6+x^5+x^4+x^2+1, and no other value |
| `NiceCore.Core.Posedge` | DDR200T/Vivado2018.3/workplace_uart/uart/uart.srcs/sources_1/imports/uart/nice_core.v:101-259 | one clock edge with its statements in source order, later assignments winning and only old values read, gives every register the value of its own next-value function |
| `NiceProtocol.Simulates` | DDR200T/Vivado2018.3/workplace_uart/uart/uart.srcs/sources_1/imports/uart/nice_core.v:101-259 | every edge, for every input and busy pattern, moves the registers along the abstract request/work/answer machine and presents that machine's byte |
| `NiceProtocol.SubstitutedFull` | DDR200T/Vivado2018.3/workplace_uart/uart/uart.srcs/sources_1/imports/uart/nice_core.v:187-196 | after four bytes the shifting S-box stage holds SM4_Nonlinear of the operand |
| `ReplySafety.RepliesAreRight` | DDR200T/Vivado2018.3/workplace_uart/uart/uart.srcs/sources_1/imports/uart/nice_core.v:103-241 | from reset, for any bytes at any times and any busy pattern, the bytes presented in TX_DATA are the replies, in order, to the twelve-byte groups accepted so far that name a request, up to the group being collected, calculated or answered, and of that one as many bytes as tx_byte_cnt says |
| `ReplySafety.OneReplyEach` | DDR200T/Vivado2018.3/workplace_uart/uart/uart.srcs/sources_1/imports/uart/nice_core.v:213-241 | what has been presented is always a prefix of those replies in order: no request is answered twice, out of order or before it was made |
| `ReplySafety.CycleByteAdvances` | RISCV-VP/iss.cpp:233-268 | a reply's four result bytes are the nice.h value big-endian and its fifth is 3 (SM3) or 7 (SM4), so advance(cycles-1) gets a positive argument |
| `ReplySafety.PollIsTruthful` | DDR200T/Vivado2018.3/workplace_uart/uart/uart.srcs/sources_1/imports/uart/nice_core.v:107-111 | a poll is answered 1 only when the result register holds the value of the request named by the last twelve accepted bytes |
| `Link.EarlyPollIsLost` | DDR200T/Vivado2018.3/workplace_uart/uart/uart.srcs/sources_1/imports/uart/nice_core.v:107-138 | with the twelve bytes taken, a poll goes unanswered exactly when the core is still in IDLE |
| `Link.ByteTakenIffSettled` | DDR200T/Vivado2018.3/workplace_uart/uart/uart.srcs/sources_1/imports/uart/nice_core.v:107-142 | the next host byte, a request byte, a poll or the read command, is taken if and only if the core has spent the one clock it may still need |
| `Link.EarlyRequestIsLost` | DDR200T/Vivado2018.3/workplace_uart/uart/uart.srcs/sources_1/imports/uart/nice_core.v:213-221 | the first byte of a request is dropped when it arrives with the whole reply out and the core still in TX_DATA |
| `Handshake.AckOutlastsCalculation` | DDR200T/Vivado2018.3/workplace_uart/uart/uart.srcs/sources_1/imports/uart/uart_tx.v:113-155 | with the real uart_tx the result is ready when the third acknowledgement is out, so no poll comes too early |
| `Link.PollByte` | DDR200T/Vivado2018.3/workplace_uart/uart/uart.srcs/sources_1/imports/uart/nice_core.v:107-111 | a poll after a silent clock is always answered, with 1 exactly when the result is ready, and an early one leaves fewer clocks to wait |
| `Link.SilentProgress` | DDR200T/Vivado2018.3/workplace_uart/uart/uart.srcs/sources_1/imports/uart/nice_core.v:107-255 | every silent clock of a pending acknowledgement, poll answer or reply makes a lexicographic measure smaller, whatever finite delays the transmitter takes, until the awaited bytes are there |
| `Device.Board.Clock` | DDR200T/Vivado2018.3/workplace_uart/uart/uart.srcs/sources_1/imports/uart/uart_top.v:42-76 | one clock of the core with its S-box and a transmitter of arbitrary finite delays is one clock of the abstract link |
| `Device.Board.Tick` | DDR200T/Vivado2018.3/workplace_uart/uart/uart.srcs/sources_1/imports/uart/uart_top.v:25-76 | one clock of uart_rx, nice_core and uart_tx together, for any level on i_uart_rx, is one clock of the abstract link, with the received word as the host byte |
| `Device.Board.SendFrame` | DDR200T/Vivado2018.3/workplace_uart/uart/uart.srcs/sources_1/imports/uart/uart_top.v:25-51 | write(fd, buf, 1): a host frame after any idle time reaches the core as one byte at one clock, which settled before it, and the answer it sets off is under way when the receiver rests |
| `Device.Board.SendBurst` | DDR200T/Vivado2018.3/workplace_uart/uart/uart.srcs/sources_1/imports/uart/uart_top.v:25-51 | write(fd, buf, 4): four frames with any idle time between them, none included, reach the core as the four bytes of the word, in order and once each, and its acknowledgement is under way when the receiver rests |
| `SerialLines.FrameIsHeard` | DDR200T/Vivado2018.3/workplace_uart/uart/uart.srcs/sources_1/imports/uart/uart_rx.v:122-187 | a receiver at rest makes of each of up to four host frames, with any gaps between them, its byte at exactly one clock |
| `SerialLines.FramesEnd` | DDR200T/Vivado2018.3/workplace_uart/uart/uart.srcs/sources_1/imports/uart/uart_rx.v:122-187 | after the last of them it hands over nothing more and is at rest one clock after it turned idle |
| `SerialLines.SamplerStep` | DDR200T/Vivado2018.3/workplace_uart/uart/uart.srcs/sources_1/imports/uart/uart_tx.v:113-157 | in each clock of a presented byte a host that samples the middle of each bit of o_uart_tx moves on with the transmitter, finds the start bit low and the stop bit high, and hands the byte over in the clock before i_state_0 falls |
| `SerialLines.HeardIsRises` | DDR200T/Vivado2018.3/workplace_uart/uart/uart.srcs/sources_1/imports/uart/uart_top.v:42-76 | over every run from reset, for any arriving bytes, the bytes a host reads off o_uart_tx, start bit, data bits and stop bit of each frame, are those for which o_data_valid rose, in order and once each: all but at most the last, and all of them when i_state_0 is low and nothing is offered |
| `SerialLines.LineShowsByte` | DDR200T/Vivado2018.3/workplace_uart/uart/uart.srcs/sources_1/imports/uart/uart_tx.v:113-138 | in every run from reset, from CYCLE/2+3 clocks after o_data_valid rises for a byte, o_uart_tx shows the start bit and then the byte's binary digits from the least significant on, each for exactly CYCLE clocks |
| `SerialLines.LineShowsStop` | DDR200T/Vivado2018.3/workplace_uart/uart/uart.srcs/sources_1/imports/uart/uart_tx.v:149-155 | after them the line is high at least until i_state_0 has fallen, two clocks into the stop bit |
| `SerialLines.ValueOfIsWorth` | DDR200T/Vivado2018.3/workplace_uart/uart/uart.srcs/sources_1/imports/uart/uart_rx.v:149-155 | eight received bits are worth the sum of 2^k over those set, the first received counting 1 |
| `SerialLines.BoardTolerance` | DDR200T/Vivado2018.3/workplace_uart/uart/uart.srcs/sources_1/imports/uart/uart_top.v:27-31 | at the board's 868 clocks a bit, exactly the host periods of 858 to 923 clocks leave every sample of four frames without a gap in its own bit, and exactly 821 to 923 those of one frame |
| `Bridge.SocketUart.SM4Write` | RISCV-VP/Bridge_Socket_Uart.cpp:121-226 | each register write terminates, sets the state flag of its register, and leaves the coprocessor waiting for the next step; 0x10 leaves the whole reply in read_buff; other addresses change nothing |
| `Bridge.SocketUart.SM4Read` | RISCV-VP/Bridge_Socket_Uart.cpp:228-240 | 0x18 yields the state flag, 0x14 the big-endian word of the first four reply bytes, other addresses leave *data alone |
| `Bridge.SocketUart.WritePoll` | RISCV-VP/Bridge_Socket_Uart.cpp:185-208 | the poll loop ends, with the result ready |
| `Bridge.Custom3` | RISCV-VP/sm_tlm_uart/sm4.h:74-97 | the body the drivers repeat terminates for any operands and any initial content of rdata, returns the nice.h reference value, and leaves the coprocessor ready again |
| `Bridge.Custom3Sm3p0` | RISCV-VP/sm_tlm_uart/sm3.h:66-98 | the driver returns P0 of its operand as nice.h computes it |
| `Bridge.Custom3Sm3p1` | RISCV-VP/sm_tlm_uart/sm3.h:101-133 | the driver returns P1 of its operand |
| `Bridge.Custom3Sm4ks` | RISCV-VP/sm_tlm_uart/sm4.h:66-98 | the driver returns the key-schedule step of nice.h |
| `Bridge.Custom3Sm4ed` | RISCV-VP/sm_tlm_uart/sm4.h:101-133 | the driver returns the encryption step of nice.h |
| `Bridge.RunCalls` | RISCV-VP/sm_tlm_uart/sm4.h:66-133 | any sequence of the four driver calls terminates, every call returns the nice.h reference value, and one silent clock after the last the coprocessor is in IDLE with no byte collected |
| `Bridge.WithAnyDelays` | DDR200T/Vivado2018.3/workplace_uart/uart/uart.srcs/sources_1/imports/uart/uart_top.v:42-76 | from reset, with a transmitter of arbitrary finite delays, every call of any sequence returns the reference value |
| `Bridge.OnSerialLines` | DDR200T/Vivado2018.3/workplace_uart/uart/uart.srcs/sources_1/imports/uart/uart_top.v:25-76 | from reset, with uart_rx, nice_core and uart_tx wired as in uart_top, every call of any sequence returns the reference value, for a host of any bit period at which four frames without a gap are read right, with any gaps inside a word; between two writes the line idles until uart_rx rests |
| `Bridge.OpCodeBytes` | RISCV-VP/sm_tlm_uart/sm4.h:68 | the first word of each driver is the custom-3 opcode, then func3 = 7 and the func7 of its operation, and the coprocessor reads exactly those two bytes as that operation |
| `Bridge.CodeNames` | RISCV-VP/sm_tlm_uart/sm4.h:66-88 | the twelve bytes a driver sends, code word, rs1 and rs2 in this order, name its operation on these operands |
| `BitValues.BytesAreDigits` | RISCV-VP/Bridge_Socket_Uart.cpp:129-132 | byte k of a word on the link holds its binary digits from 24-8k on: the most significant byte goes first |
| `UartBaud.Divider` | DDR200T/Vivado2018.3/workplace_uart/uart/uart.srcs/sources_1/imports/uart/uart_tx.v:39-95 | the baud counter, pulse and state blocks as written give the next-value functions of the divider |
| `UartTx.Transmitter.Posedge` | DDR200T/Vivado2018.3/workplace_uart/uart/uart.srcs/sources_1/imports/uart/uart_tx.v:39-158 | one clock edge of the four blocks gives the next-value function of the transmitter |
| `UartTx.FrameIsSent` | DDR200T/Vivado2018.3/workplace_uart/uart/uart.srcs/sources_1/imports/uart/uart_tx.v:101-158 | from an accepted word on, all registers are known at every clock of the frame, whatever the input does after the second clock |
| `UartTx.LineCarriesFrame` | DDR200T/Vivado2018.3/workplace_uart/uart/uart.srcs/sources_1/imports/uart/uart_tx.v:114-157 | the line shows the start bit and each data bit, least significant first, for exactly CYCLE clocks each |
| `UartTx.FrameEnds` | DDR200T/Vivado2018.3/workplace_uart/uart/uart.srcs/sources_1/imports/uart/uart_tx.v:149-155 | the transmitter is idle again one clock after the stop bit begins |
| `UartTx.BusyCoversFrameIffHeld` | DDR200T/Vivado2018.3/workplace_uart/uart/uart.srcs/sources_1/imports/uart/uart_tx.v:115-126 | o_state_0 is high over the whole transmission if and only if i_data_valid is held for a second clock |
| `UartRx.Receiver.Posedge` | DDR200T/Vivado2018.3/workplace_uart/uart/uart.srcs/sources_1/imports/uart/uart_rx.v:20-187 | one clock edge of all blocks gives the next-value function of the receiver |
| `UartRx.FrameIsReceived` | DDR200T/Vivado2018.3/workplace_uart/uart/uart.srcs/sources_1/imports/uart/uart_rx.v:122-187 | from start detection on, all registers are known at every clock of the reception, for any line that passes the start check |
| `UartRx.DeliversOnce` | DDR200T/Vivado2018.3/workplace_uart/uart/uart.srcs/sources_1/imports/uart/uart_rx.v:168-184 | up to the end of the frame o_rx_done is high at exactly one clock, and the word is the line sampled at offset CYCLE/2+6 of each bit |
| `UartRx.GlitchIsDropped` | DDR200T/Vivado2018.3/workplace_uart/uart/uart.srcs/sources_1/imports/uart/uart_rx.v:142-148 | a low pulse that is over at the start check yields no word and an idle receiver |
| `UartLink.LoopbackDelivers` | DDR200T/Vivado2018.3/workplace_uart/uart/uart.srcs/sources_1/imports/uart/uart_rx.v:59-187 | every word of 1 to 15 bits sent by an idle uart_tx is handed over unchanged by an idle uart_rx, once, for every CYCLE from 13 to 65536 |
| `UartLink.LoopbackNeedsThirteen` | DDR200T/Vivado2018.3/workplace_uart/uart/uart.srcs/sources_1/imports/uart/uart_rx.v:59-187 | at equal rates every word is decoded if and only if CYCLE is at least 13 |
| `UartLink.RelaysAll` | DDR200T/Vivado2018.3/workplace_uart/uart/uart.srcs/sources_1/imports/uart/uart_tx.v:39-158 | any sequence of words, each sent when both ends are at rest, with any idle time more, arrives in order, each exactly once, and both ends are idle again |
| `UartLink.ToleranceIsExact` | DDR200T/Vivado2018.3/workplace_uart/uart/uart.srcs/sources_1/imports/uart/uart_rx.v:59-187 | the receiver decodes every word of a sender with bit period P if and only if CYCLE/2+6 < P and every sample lies in its own bit |
| `UartLink.WithinToleranceDecodes` | DDR200T/Vivado2018.3/workplace_uart/uart/uart.srcs/sources_1/imports/uart/uart_rx.v:59-187 | within that tolerance each word is handed over exactly once and unchanged |
| `UartBurst.BurstToleranceIsExact` | DDR200T/Vivado2018.3/workplace_uart/uart/uart.srcs/sources_1/imports/uart/uart_rx.v:59-187 | a receiver of eight-bit words gets every burst of up to n frames with one stop bit right, whatever the gaps between them, if and only if in each of n frames without a gap every sample lies in its own bit, counted from the start the receiver takes, which a frame sent too early moves back |
| `UartBurst.BurstIsHeard` | DDR200T/Vivado2018.3/workplace_uart/uart/uart.srcs/sources_1/imports/uart/uart_rx.v:59-187 | while the frames of a burst fit, each is handed over unchanged at exactly one clock between the receiver's waits for it and for the next |
| `UartBurst.BurstArrives` | DDR200T/Vivado2018.3/workplace_uart/uart/uart.srcs/sources_1/imports/uart/uart_rx.v:59-187 | by the time the receiver idles after the last frame it has handed over exactly the words sent, in order, and it stays so |
| `UartBurst.EqualRatesBurst` | DDR200T/Vivado2018.3/workplace_uart/uart/uart.srcs/sources_1/imports/uart/uart_rx.v:59-187 | at equal rates every burst of up to n frames arrives if and only if CYCLE/2+4+2n < CYCLE: each frame without a gap is taken two clocks later than the one before |
| `Handshake.ExactlyOnce` | DDR200T/Vivado2018.3/workplace_uart/uart/uart.srcs/sources_1/imports/uart/nice_core.v:107-115 | in nice_core wired to uart_tx the data bits that uart_tx shifts out are those of the bytes whose o_data_valid rose, in order, without loss, repetition or change, and at most the last byte is incomplete; o_data_valid equals state_count; o_state_0 low means an idle transmitter |
| `Handshake.BitsInjective` | DDR200T/Vivado2018.3/workplace_uart/uart/uart.srcs/sources_1/imports/uart/uart_tx.v:135-137 | the bits sent determine the byte, so equal wires carry equal bytes |
| `Handshake.BitsAreDigits` | DDR200T/Vivado2018.3/workplace_uart/uart/uart.srcs/sources_1/imports/uart/uart_tx.v:133-138 | bit k of the frame of a byte is its binary digit k, the least significant first |
| `Handshake.StageStep` | DDR200T/Vivado2018.3/workplace_uart/uart/uart.srcs/sources_1/imports/uart/uart_tx.v:113-155 | every clock of the two wired together moves a presented byte one stage on, and nothing is presented before the byte before it is out |
| `Handshake.SystemIsALink` | DDR200T/Vivado2018.3/workplace_uart/uart/uart.srcs/sources_1/imports/uart/uart_top.v:42-76 | the real transmitter is one of the transmitters the end-to-end result allows |
| `PipelineTiming.Scoreboard.AdvanceAll` | RISCV-VP/timing.h:124-151 | the two erase loops and both units advance every latency by n and drop what has run out, and no assert fires |
| `PipelineTiming.Scoreboard.ExpireRegisters` | RISCV-VP/timing.h:127-135 | the loop that erases while it iterates keeps exactly the entries still pending, in order |
| `PipelineTiming.Scoreboard.AccessRegister` | RISCV-VP/timing.h:159-166 | an access stalls for the register's pending latency |
| `PipelineTiming.Scoreboard.DoLoad` | RISCV-VP/timing.h:258-272 | a load that meets a reserved store stalls one cycle, and one more is added below word size |
| `PipelineTiming.Scoreboard.Execute` | RISCV-VP/iss.cpp:660-669 | under the simulator's discipline (write rd, then add its latency) every call is defined: no assert of the scoreboard fires in any sequence |
| `PipelineTiming.WriteLeavesNothingPending` | RISCV-VP/timing.h:178-182 | after an access of a register no latency is pending for it, which add_result_latency asserts |
| `PipelineTiming.PendingAdvances` | RISCV-VP/timing.h:128-135 | advancing lowers each register's pending latency by the elapsed cycles, down to none |
| `PipelineTiming.ResultsTake` | RISCV-VP/timing.h:191-236 | from any sound state, reading the result right after a multiplication takes 18 cycles, after a division 34 and after a CSR access 5 |
| `PipelineTiming.UnitsTake` | RISCV-VP/timing.h:184-231 | a multiplication right after another waits 17 cycles, a division after a division 33, or longer if its own target is still pending |
| `PipelineTiming.LoadsTake` | RISCV-VP/timing.h:258-272 | a load stalls one cycle exactly when it meets a store, and its result takes 2 cycles, or 3 when it met one and is below four bytes |
| `PipelineTiming.StoresLast` | RISCV-VP/timing.h:239-250 | a store is in the way of overlapping loads in its own cycle and the next, and no longer |
| `PipelineClock.CountCycles` | RISCV-VP/timing.h:124-271 | over every sequence of calls num_total_cycles is the time of a clock that only takes maxima of ready times and erases nothing |
| `PipelineClock.CallMatches` | RISCV-VP/timing.h:159-272 | each call keeps the scoreboard equal to that clock seen from now: pending latencies, unit reservations and live stores in order |
| `PipelineClock.AdvanceSplits` | RISCV-VP/timing.h:86-96 | advance(n); advance(m) equals advance(n+m) up to the latency left in a released unit |
| `PipelineClock.SplitStall` | RISCV-VP/timing.h:153-155 | a stall taken in two pieces changes no later cycle count |
| `PipelineClock.OverlapIsSharing` | RISCV-VP/timing.h:36-46 | two accesses overlap if and only if they share an address and the one that starts first does not end at the top of the address space |
| `PipelineClock.NoWordAnomaly` | RISCV-VP/timing.h:241-272 | a program whose loads are words never finishes earlier for having started later, at any instruction |
| `PipelineClock.LaterStays` | RISCV-VP/timing.h:258-272 | one call keeps that order if and only if it is not a sub-word load that meets the store in the earlier run only, one cycle apart |
| `PipelineClock.NeverEarlierExactly` | RISCV-VP/timing.h:241-272 | for any program and any two starts, one pointwise later: no instruction that reads a register finishes earlier in the later run if and only if the run meets no such load |
| `PipelineClock.AnomalyShows` | RISCV-VP/timing.h:258-272 | every such load lets the next reader of its register finish earlier in the later run |
| `PipelineClock.SubWordAnomaly` | RISCV-VP/timing.h:263-264 | with a byte load a later start does finish earlier: 4 cycles instead of 5 |
| `BranchPrediction.Predictor.UpdateBranchPrediction` | RISCV-VP/timing.h:388-411 | the update with its table writes is one step on the tables, and a wrong prediction, and nothing else, stalls the scoreboard by 3 cycles |
| `BranchPrediction.Predictor.DoReturn` | RISCV-VP/timing.h:435-438 | a return pops the stack and falls back to the target buffer only when the top is missing or wrong |
| `BranchPrediction.Predictor.DoCall` | RISCV-VP/timing.h:430-433 | a call jumps and pushes its link, keeping at most two |
| `BranchPrediction.Entry.Updated` | RISCV-VP/timing.h:350-359 | counters stay in 0..3 and the history in 0..7 |
| `BranchPrediction.HistoryIsLastThree` | RISCV-VP/timing.h:358 | the history holds exactly the last three outcomes, the latest at the top |
| `BranchPrediction.Predictor.Replay` | RISCV-VP/timing.h:388-438 | over any sequence of branches, jumps, calls and returns the predictor in front of its scoreboard follows the run on the tables, and from reset num_total_cycles rises by 3 for each mispredicted event |
| `BranchPrediction.EventOfRunCosts` | RISCV-VP/timing.h:388-438 | in every run from reset an event costs exactly 3 cycles or none, decided by the events before it alone: a branch by its predicted direction and the last target stored for slot last_pc % 40, a jump or a call by that target, a return by it unless it goes to the innermost remembered caller |
| `BranchPrediction.TotalIsMispredictions` | RISCV-VP/timing.h:388-438 | the cycles a run from reset adds are 3 times the number of such mispredicted events of all four kinds |
| `BranchPrediction.UpdateFollows` | RISCV-VP/timing.h:336-360 | an entry's history is the pattern of its last three outcomes, and the counter of a pattern stands at k or above if and only if since some moment k more outcomes under it were taken than not and since no later one fewer than k-3 more |
| `BranchPrediction.MistakesFromReset` | RISCV-VP/timing.h:336-411 | from reset, an unaliased branch with a fixed target whose outcome is any function of its history is mispredicted exactly min(2, visits) times for each history after which it is taken, so at most 16 times and 48 cycles over any run; with no other events in the run num_total_cycles rises by exactly that |
| `BranchPrediction.MistakeBound` | RISCV-VP/timing.h:388-411 | from any valid tables such a branch is mispredicted at most 17 times over any run |
| `BranchPrediction.StackIsInnermost` | RISCV-VP/timing.h:278-299 | after any run the two-entry return stack holds the innermost entries of an unbounded call stack, as many as calls and returns have left remembered |
| `BranchPrediction.RememberedReturnsAreFree` | RISCV-VP/timing.h:430-438 | a return to its caller stalls nothing and touches no table while that caller is among them |
| `InstrCache.Cache.UpdateTimingModel` | RISCV-VP/timing.h:490-518 | hit, miss and LRU update of the addressed line in place, other lines unchanged, and the scoreboard stalled by the penalty on a miss alone |
| `InstrCache.TagIs` | RISCV-VP/timing.h:477-479 | the line index is the number of the address's 32-byte line modulo 512 |
| `InstrCache.HeadIs` | RISCV-VP/timing.h:481-483 | the head is the address rounded down to a multiple of 16 KiB |
| `InstrCache.Fetch` | RISCV-VP/timing.h:477-518 | over any sequence of addresses each fetch hits if and only if, since the last fetch from its own 32-byte line, or power-on for the lowest 16 KiB, at most one other line with the same number modulo 512 was fetched; num_total_cycles rises by 4520 to 4719 times the misses |
| `InstrCache.HoldsTwoLatest` | RISCV-VP/timing.h:496-501 | a line that follows its history holds exactly the two latest distinct heads |
| `InstrCache.SameLine` | RISCV-VP/timing.h:473-483 | tag and head are equal for two addresses if and only if they lie in the same 32 bytes |
| `InstrCache.StayingHits` | RISCV-VP/timing.h:490-501 | a fetch within the line fetched just before always hits |
| `Rotation.RotlMoves` | RISCV-VP/nice.h:20-22 | for every word and n up to 32, the rotation moves binary digit i to digit i+n modulo 32 |
| `Mixing.P0Digits` | RISCV-VP/nice.h:152 | digit i of P0(x) is the parity of digits i, i-9 and i-17 of x modulo 32 |
| `Mixing.P1Digits` | RISCV-VP/nice.h:200 | digit i of P1(x) is the parity of digits i, i-15 and i-23 of x modulo 32 |
| `Mixing.KeyMapDigits` | RISCV-VP/nice.h:339-342 | digit i of the key map is the parity of digits i, i-13 and i-23 modulo 32 |
| `Mixing.DataMapDigits` | RISCV-VP/nice.h:344-349 | digit i of the encryption map is the parity of digits i, i-2, i-10, i-18 and i-24 modulo 32 |
| `Mixing.P0FourTimes` | RISCV-VP/nice.h:152 | P0 applied four times is the identity |
| `Mixing.P1FourTimes` | RISCV-VP/nice.h:200 | P1 applied four times is the identity |
| `Mixing.P0Permutes` | RISCV-VP/nice.h:152 | P0 is a bijection, with its inverse |
| `Mixing.P1Permutes` | RISCV-VP/nice.h:200 | P1 is a bijection, with its inverse |
| `Mixing.DataMapFourTimes` | RISCV-VP/nice.h:344-349 | the encryption map L applied four times is rotation by 8 |
| `Mixing.KeyMapSixteenTimes` | RISCV-VP/nice.h:339-342 | the key map L' applied sixteen times is the identity |
| `Mixing.SubstitutionPermutes` | RISCV-VP/nice.h:319-331 | the bytewise substitution has a two-sided inverse |
| `Mixing.DataTPermutes` | RISCV-VP/nice.h:451-453 | the encryption T map is a bijection of the words, with its inverse |
| `Mixing.KeyTPermutes` | RISCV-VP/nice.h:399-401 | the key-schedule T map is a bijection of the words, with its inverse |
| `Rotation.MixSquare` | RISCV-VP/nice.h:333-352 | an exclusive-or of rotations applied twice is the one with doubled amounts |
| `Sm4.SumDigits` | RISCV-VP/sm4_nice_uart/insn.c:38 | the inner sum of a round is in every digit the parity of its four arguments |
| `Sm4.KeyLoop` | RISCV-VP/sm4_nice_uart/insn.c:37-41 | the loop fills K by the key-schedule rule and rk with its tail |
| `Sm4.EncryptLoop` | RISCV-VP/sm4_nice_uart/insn.c:49-52 | the loop fills X by the round rule |
| `Sm4.DecryptLoop` | RISCV-VP/sm4_nice_uart/insn.c:66-69 | the loop fills Y by the round rule with the round keys backwards |
| `Sm4.DecryptionUndoes` | RISCV-VP/sm4_nice_uart/insn.c:62-69 | decryption undoes encryption for every key sequence, every block and every inner function |
| `Sm4.EncryptionUndoes` | RISCV-VP/sm4_nice_uart/insn.c:49-60 | encryption undoes decryption, likewise |
| `Sm4.MirrorImage` | RISCV-VP/sm4_nice_uart/insn.c:62-69 | Y[i] equals X[35-i] at every index, whatever the inner function |
| `Sm4.KeyFromAnyFour` | RISCV-VP/sm4_nice_uart/insn.c:33-41 | the key is computed back from any four consecutive round keys |
| `Sm4.SameFourSameKey` | RISCV-VP/sm4_nice_uart/insn.c:33-41 | keys that share four consecutive round keys are equal |
| `Sm4.Sm4Nice` | RISCV-VP/sm4_nice_uart/insn.c:22-80 | the whole function: X ends with the block encrypted under the key's round keys, by the constants' rule (sections 7.1 to 7.3 of GB/T 32907-2016), Y runs back through X and ends with the block |
| `Sm4Uart.KeyLoop` | RISCV-VP/sm_tlm_uart/sm4.h:168-172 | with each step computed by the coprocessor over the link, the loop fills K by the key-schedule rule and rk with its tail |
| `Sm4Uart.EncryptLoop` | RISCV-VP/sm_tlm_uart/sm4.h:180-183 | likewise the loop fills X by the round rule |
| `Sm4Uart.DecryptLoop` | RISCV-VP/sm_tlm_uart/sm4.h:197-200 | likewise the loop fills Y by the round rule with the round keys backwards |
| `Sm4Uart.Sm4Nice` | RISCV-VP/sm_tlm_uart/sm4.h:153-210 | 96 driver calls through registers, serial line and coprocessor encrypt the block into X and run Y back through X to the block, and leave the coprocessor ready |
| `Sm4Uart.OnSerialLines` | DDR200T/Vivado2018.3/workplace_uart/uart/uart.srcs/sources_1/imports/uart/uart_top.v:25-76 | the same from reset over the two serial lines of uart_top |
| `Sm4Example.StandardExample` | RISCV-VP/sm_tlm_uart/sm4.c:5-26 | for the key and block of the repository's own run the ciphertext is that of the example in annex A.1 of GB/T 32907-2016 |
| `Sm3.FFIsMajority` | RISCV-VP/sm3_nice_uart/insn.c:35-36 | from round 16 on FF is the bitwise majority of its operands |
| `Sm3.GGIsChoice` | RISCV-VP/sm3_nice_uart/insn.c:44-45 | from round 16 on GG chooses bitwise between its last two operands |
| `Sm3.FFGGAreParity` | RISCV-VP/sm3_nice_uart/insn.c:32-48 | before round 16 both are the bitwise parity |
| `Sm3.MessageExt` | RISCV-VP/sm3_nice_uart/insn.c:50-75 | the three loops compute W and W' of section 5.3.2 of GB/T 32905-2016 |
| `Sm3.TInit` | RISCV-VP/sm3_nice_uart/insn.c:20-30 | the table holds the round constants |
| `Sm3.RoundInPlace` | RISCV-VP/sm3_nice_uart/insn.c:98-109 | the eight assignments in their written order are the simultaneous round of section 5.3.3 |
| `Sm3.TurnedMoves` | RISCV-VP/sm3_nice_uart/insn.c:98 | the constant of round j has its digits moved left by j modulo 32 |
| `Sm3.Cf` | RISCV-VP/sm3_nice_uart/insn.c:88-117 | 64 rounds in place and the final exclusive-or are the compression function |
| `Sm3.RoundsAreABijection` | RISCV-VP/sm3_nice_uart/insn.c:97-110 | for fixed expanded words any number of rounds is a bijection of the eight words, with its inverse |
| `Sm3Hash.Pad` | RISCV-VP/sm3_nice_uart/insn.c:121-129 | the buffer built is the message, 0x80, zeros and the 32-bit product of the length by 8 in the last eight bytes |
| `Sm3Hash.PadMeetsStandard` | RISCV-VP/sm3_nice_uart/insn.c:121-129 | that buffer is the padding of section 5.2 if and only if the length is below 2^29 and not 55 modulo 64 |
| `Sm3Hash.ExtraBlock` | RISCV-VP/sm3_nice_uart/insn.c:121 | at 55 modulo 64 it is one block longer, otherwise equally long |
| `Sm3Hash.PadIsInjective` | RISCV-VP/sm3_nice_uart/insn.c:121-129 | different messages have different buffers |
| `Sm3Hash.StandardPadIsShortest` | RISCV-VP/sm3_nice_uart/insn.c:121 | the standard padding the code is compared with adds the fewest zero bits that leave 448 modulo 512 |
| `Sm3Hash.Sm3Nice` | RISCV-VP/sm3_nice_uart/insn.c:119-146 | SM3_nice leaves in V the fold of the compression function over that buffer, from the initial value, for every length whose block indices fit an int |
| `Sm3Hash.DigestAppends` | RISCV-VP/sm3_nice_uart/insn.c:140-143 | that fold starts from the initial value and takes the blocks from the first to the last |
| `Sm3Example.StandardExample` | RISCV-VP/sm3_nice_uart/nice.c:10-17 | for the message abc of the repository's own run the value is the digest of the example in annex A.1 of GB/T 32905-2016 |
| `Interrupts.HighestOpenLevel` | RISCV-VP/iss.cpp:2499-2522 | the choice is the highest level with a pending, enabled interrupt delegated to it, with exactly that level's bits; none only if there is none |
| `Interrupts.FirstInPriority` | RISCV-VP/iss.cpp:2456-2476 | the cause is the first set bit in the priority order, and the exception is thrown only if none of the nine is set |
| `Interrupts.PriorityRule` | RISCV-VP/iss.cpp:2456-2476 | that order is machine before supervisor before user mode and, within a mode, external before software before timer |
| `Interrupts.SelectedHasCause` | RISCV-VP/iss.cpp:2456-2476 | with only the nine interrupts in mip the throw is unreachable |
| `Traps.Hart.PrepareTrap` | RISCV-VP/iss.cpp:2418-2446 | target by delegation, pc set back, cause written at the target; the assert holds |
| `Traps.Hart.ComputePendingInterrupts` | RISCV-VP/iss.cpp:2499-2522 | the sequential code answers the choice that HighestOpenLevel characterises |
| `Traps.Hart.PrepareInterrupt` | RISCV-VP/iss.cpp:2448-2497 | the cause is written at the target level, or the throw taken |
| `Traps.Hart.SwitchToTrapHandler` | RISCV-VP/iss.cpp:2524-2582 | the stack of interrupt enables and privilege, the saved pc and the direct or vectored handler |
| `Traps.Hart.ReturnFromTrapHandler` | RISCV-VP/iss.cpp:2328-2361 | the return pops them |
| `Traps.Hart.TakeTrap` | RISCV-VP/iss.cpp:2647-2652 | a trap in run_step is one entry of the nests below |
| `Traps.Hart.TakeInterrupt` | RISCV-VP/iss.cpp:2642-2646 | so is an interrupt taken after an instruction; without one, or when the exception is thrown for want of a cause, nothing changes |
| `Traps.EntrySaves` | RISCV-VP/iss.cpp:2418-2582 | a trap or interrupt goes to the current level or above, a trap exactly as far as both delegation registers say, so the one-bit spp keeps the whole previous level; it starts the handler of its cause, saves what its own return needs and touches no other level |
| `Traps.EntryMasksItsLevel` | RISCV-VP/iss.cpp:2499-2522 | right after an entry only interrupts for a strictly higher level are taken |
| `Traps.NestRestores` | RISCV-VP/iss.cpp:2328-2361 | any strictly rising nest of traps and interrupts, each ended by its own xRET, restores pc, privilege and all enable bits (section 3.1.6.1 of the RISC-V Privileged Architecture) |
| `Traps.RestoresIffRising` | RISCV-VP/iss.cpp:2328-2361 | for any two entries, the second inside the handler of the first: it never goes lower, and the outer return gives back the saved pc, the level and the enable bit if and only if it went higher or what it saved itself happens to be the same; an entry at the running level sends the outer return to its own place |
| `MulDiv.SignedProduct` | RISCV-VP/iss.cpp:1142-1175 | MULH joined with MUL is the exact signed product |
| `MulDiv.UnsignedProduct` | RISCV-VP/iss.cpp:1177-1192 | MULHU joined with MUL is the exact unsigned product |
| `MulDiv.MixedProduct` | RISCV-VP/iss.cpp:1194-1209 | MULHSU joined with MUL is the exact product of a signed and an unsigned operand |
| `MulDiv.SignedDivision` | RISCV-VP/iss.cpp:1211-1285 | DIV*b+REM is a modulo 2^32 always; otherwise the exact truncating pair with a remainder smaller than the divisor and of the dividend's sign; the two special cases |
| `MulDiv.TruncationIsUnique` | RISCV-VP/iss.cpp:1219-1221 | only one quotient and remainder truncate |
| `MulDiv.UnsignedDivision` | RISCV-VP/iss.cpp:1237-1312 | DIVU*b+REMU is a, exactly with a smaller remainder when b is not 0; the case b = 0 |
| `MulDiv.Executor.Execute` | RISCV-VP/iss.cpp:1142-1312 | the instruction reads its operands before it writes rd and makes the timing calls in that order |
| `MulDiv.MultipliesByZero` | RISCV-VP/iss.cpp:1142-1312 | the operations that occupy the multiplier, not the divider, are exactly those that make 0 of any operand and 0 |
| `CounterRead.Counter.Get` | RISCV-VP/sm_tlm_uart/core_feature_base.h:85-104 | the value returned lies between the counter's values at the first and the last read, and is its value at one of the two low reads if it advances by at most 2^32 meanwhile |
| `CounterRead.WithinTheCall` | RISCV-VP/sm_tlm_uart/core_feature_base.h:91-97 | however far the counter runs, the value put together is one it passed during the call |
| `CounterRead.RightExactlyWhen` | RISCV-VP/sm_tlm_uart/core_feature_base.h:94-97 | the words belong together if and only if no carry falls between the last two reads or the first check sees none |
| `CounterRead.BoundIsSharp` | RISCV-VP/sm_tlm_uart/core_feature_base.h:91-97 | at 2^32 + 1 the value can differ from that of every read |

## Left out

* Serial-port settings, device paths, open and close, and reads that return part of an answer: foreign I/O.
* The serial bodies of `nice.h` and the test bench `uart_top_tb.v`: they send ten-byte frames, which
  the repository's `nice_core.v` does not take.
* The parity paths of `uart_tx.v` and `uart_rx.v` (switched off in `uart_top.v`), words wider than 15 bits, bit
  periods below four clocks, and bursts without pauses of words that are not eight bits wide.
* Encodings of the core's four-bit state that no assignment produces.
* Big-endian hosts (`get_endian`, `LE2BE`) and the bus that subtracts the base address.
* Wrap-around of the 64-bit cycle total and of a 64-bit counter during a read.
* The latencies outside E203 timing, including the random division latency.
* A failing allocation in SM3_nice, and padding beyond 2^32 - 73 message bytes, where the allocation is too small.
* Most of `exec_step`, floating point, atomics, CSR masks, reservation locks, wait-for-interrupt, system calls,
  legality of xRET by privilege, power and SystemC hooks, and `tiny32_main.cpp`: easy members, or they rest on
  headers that the repository does not contain.
* `random_generator.v`: not instantiated.
- Bridge.SocketUart.SM4Write: requires the order of register writes the drivers keep; other orders can leave the
  host waiting for a byte that never comes, which the model does not follow.
- Sm3Hash.Sm3Nice: covers lengths below 2^31 - 9. From there on the last block starts at 2^31 or later, and the
  int product `i * 64` that indexes it overflows, which C leaves undefined.
- Bridge.OnSerialLines: the host's own receiver is at the board's rate; that the line idles until `uart_rx` rests
  between two writes is part of the host's model, not derived from the time its reads take.
- UartLink.RelaysAll: each word is sent once both ends are at rest, so it says nothing about words sent with less
  than that pause.
