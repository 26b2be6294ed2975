# morseping in Dafny

morseping turns network round-trip jitter into sound. A worker thread
sends ICMP Echo Requests to a gateway on every tick of a timer. It takes
the IP identification field of each matching Echo Reply as a timestamp
and stores the second difference of those values as a jitter sample.
From those samples it synthesises 16-bit audio through a fractional-rate
resampler and two high-pass filters, and writes the blocks to the sound
device. While the morse button is held, each tick sends a burst of 0, 1
or 2 probes in rotation rather than a single heartbeat probe. The Qt
window holds the shared state: slots store the device, gateway,
frequency and amplitude and post reconfiguration requests, and two knob
widgets set the frequency and the volume.

The model has two layers:

- **Value level.** The worker state is a datatype, `Process.WState`. The
  following are functions on it:
  - the checksum (`Checksum`);
  - the probe headers (`Icmp`);
  - the receive loop (`Receiver`);
  - the synthesiser (`Synthesis`);
  - the servicing branch, the event dispatch and the slots (`Process`).

  The lemmas state the properties: a finished header checksums to zero,
  bursts carry consecutive sequence numbers, the jitter buffer holds the
  second differences of the accepted identification values, samples stay
  saturated, the resampler phase is exact modulo the sample rate, and the
  invariant holds across any interleaving of slots and worker phases.
- **Imperative level.** `WorkerLoop.Worker` is a class with the fields of
  `MPMainWindow` that the worker reads and writes. The jitter buffer is a
  fixed-size `array`, compacted in place. Each method is a C function or
  a contiguous part of one, loop for loop, with its lines in the Model
  table. Its `ensures` equates the new object state, and any output, with
  the value-level function applied to the old state.
- `Knob.Volume` is the `MPVolume` widget's value logic, as a class.

Host byte order is a parameter (`Checksum.ByteOrder`), because the
checksum word is stored in host order while the identifier and sequence
number are stored with `htons`. The operating system's answers are inputs:

- the handles returned by the three `mp_config_*` functions, the result
  of `kqueue` and `errno`;
- the datagrams pending before `recvmsg` would block;
- the answer of the output-delay query and whether `write` succeeded.

The code behaves as follows in places that are easy to misread:

- **Jitter from the first reply.** `last[]` starts at zero and is not
  reset on reconfiguration. Every accepted reply appends a value,
  starting with the first. The first difference is wrapped to `int16_t`,
  not saturated, and the appended difference is an unclamped `int`.
  Identification values 100, 105, 111 and 118 from the initial state
  append 100, -95, 1 and 1 (morseping.cpp:140-146,
  `Receiver.FirstRepliesAppend`).
- **No automatic retry.** A failed configuration still clears the
  request. The worker then only sleeps until a slot posts a new one
  (morseping.cpp:316-330, `Process.FailedConfigurationWaits`).
- **Idle at start.** The request flag starts at 0 (the bulk clear at
  morseping.cpp:353), so nothing is opened before the first "Apply
  config" (`Process.InitiallyIdle`).
- **Timer-only reconfiguration.** It also empties the jitter buffer,
  because `bufpos = 0` is unconditional (morseping.cpp:316-317).
- **Amplitude scaling.** The product `buffer[y] * amp` is narrowed to
  `int16_t` by the parameter type of `mp_subtract_safe` before the clamp,
  so a product just above 32767 wraps (morseping.cpp:94-104 and 183-184,
  `Synthesis.ScaleWrapsBeforeClamp`).
- **Knob range.** `MPVolume` clamps to an inclusive range
  (morseping.cpp:559-567), even though the header's comment calls `min`
  exclusive (morseping.h:102).

## Model

| member | source | states |
|---|---|---|
| FixedWidth.ToU16 | morseping.cpp:82 | narrowing to `uint16_t` leaves 16-bit values unchanged |
| FixedWidth.ToU16Congruent | morseping.cpp:82 | the narrowed value differs from the input by a multiple of 2^16 |
| FixedWidth.ToU16Succ | morseping.cpp:82 | incrementing the narrowed counter agrees with narrowing the incremented value, so 0xFFFF wraps to 0 |
| FixedWidth.ToI16 | morseping.cpp:141 | the `(int16_t)` cast leaves values in [-32768, 32767] unchanged |
| FixedWidth.ToI16Congruent | morseping.cpp:141 | the cast result differs from the input by a multiple of 2^16 |
| FixedWidth.CDivBounds | morseping.cpp:531 | C division by a positive divisor truncates toward zero: the remainder has the dividend's sign and is smaller than the divisor |
| Checksum.StoreWord | morseping.cpp:87-88 | a host-order store of the checksum writes two bytes that load back as the same word |
| Checksum.WordSum | morseping.cpp:59-62 | the sum of n 16-bit words lies in [0, n * 0xFFFF] |
| Checksum.Sum | morseping.cpp:55-68 | the value of `sum` before folding: the words of the buffer in host order plus, for an odd length, the last byte padded with a zero byte; SumFitsInt32 bounds it by 32 bits and InCksum's loop is proved to compute it |
| Checksum.Finish | morseping.cpp:69-71 | the two end-around-carry folds and the complement truncated to 16 bits; OnesSum, FinishComplements and FinishVerifies prove that it is the ones'-complement checksum of the sum |
| Checksum.Cksum | morseping.cpp:55-71 | `mp_in_cksum` of a buffer, Finish of Sum; InCksum is proved equal to it, and EchoRequestWellFormed proves that a header carrying it checksums to 0 |
| Checksum.SumFitsInt32 | morseping.cpp:55-68 | for any buffer up to IP_MAXPACKET bytes the accumulated sum never overflows the 32-bit `int` |
| Checksum.InCksum | morseping.cpp:44-73 | the word loop, the odd-byte padding, the two folds and the complement compute Cksum of the buffer |
| Checksum.OnesSum | morseping.cpp:69-71 | the folded sum is 0 only for a zero sum, otherwise in [1, 0xFFFF], congruent to the sum modulo 0xFFFF, and the checksum is its complement |
| Checksum.FinishComplements | morseping.cpp:69-71 | sum plus checksum is 0 modulo 0xFFFF, and a positive sum never gives checksum 0xFFFF |
| Checksum.FinishVerifies | morseping.cpp:69-71 | summing again with the checksum added gives checksum 0 |
| Icmp.EchoHeader | morseping.cpp:83-86 | a header is ICMP_MINLEN = 8 bytes |
| Icmp.EchoRequest | morseping.cpp:83-88 | the header with its checksum filled in is 8 bytes |
| Icmp.SumOfHeader | morseping.cpp:87-88 | storing a value in the checksum field adds exactly that value to the word sum, which is at most 4 * 0xFFFF |
| Icmp.EchoRequestWellFormed | morseping.cpp:83-88 | every sent header has type 8 and code 0, its identifier and sequence number read back as written, and its checksum over the whole header is 0 |
| Icmp.FirstProbeChecksum | morseping.cpp:83-88 | a known answer: the first probe with sequence number 0 has checksum 0x5219 on a little-endian host, and on either host goes on the wire as bytes 8, 0, 0x19, 0x52, 0xDE, 0xAD, 0, 0 |
| Icmp.Burst | morseping.cpp:81-91 | one `mp_send(num)` emits exactly num headers of 8 bytes each |
| Icmp.BurstSnoc | morseping.cpp:81-91 | each pass of the send loop appends the probe with identifier 0xdead + x and sequence number seq0 + x |
| Icmp.BurstSequenceConsecutive | morseping.cpp:82-85 | consecutive probes of a burst carry consecutive sequence numbers modulo 2^16 |
| Icmp.BurstProbes | morseping.cpp:81-91 | probe x of a burst has type 8, code 0, identifier 0xdead + x and sequence number seq0 + x (both modulo 2^16), and checksums to 0 |
| Receiver.DrainPreservesInv | morseping.cpp:137-146 | receiving keeps `last[0]` 16-bit, `last[1]` an `int16_t`, the buffer within capacity and every sample a difference of two `int16_t` values |
| Receiver.DrainSnoc | morseping.cpp:117-147 | one more datagram is recorded exactly when it passes the accept test (Echo Reply, identifier 0xdead, sender equal to the target) |
| Receiver.DrainIsSecondDifference | morseping.cpp:137-146 | after any datagrams the buffer is the old buffer followed by the second differences of the accepted identification values, cut at capacity, and `last[]` holds the last value and its wrapped first difference |
| Receiver.DrainRetainsBuffered | morseping.cpp:145-146 | samples already buffered are never changed by receiving, and a full buffer stays exactly as it was: new values are dropped |
| Receiver.FirstRepliesAppend | morseping.cpp:140-146 | from the zero state the first reply already appends: ids 100, 105, 111, 118 append 100, -95, 1, 1 |
| Receiver.Accepts | morseping.cpp:137-139 | the accept test: an Echo Reply whose identifier is 0xdead and whose sender equals the target address; DrainSnoc proves that exactly these datagrams are recorded |
| Receiver.Record | morseping.cpp:140-146 | one accepted reply: `last[0]` becomes the identification value, `last[1]` its wrapped first difference, and the second difference is appended only below capacity; DrainIsSecondDifference and DrainRetainsBuffered prove what a sequence of them does |
| Receiver.Drain | morseping.cpp:117-148 | the receive loop over the pending datagrams, Record of each accepted one in arrival order; DrainIsSecondDifference gives its result in closed form and DrainPreservesInv proves the receiver invariant kept |
| Synthesis.SubtractSafe | morseping.cpp:94-104 | the result lies in [-32767, 32767], so -32768 never appears, and equals a - b whenever a - b is in that range |
| Synthesis.SubtractSafeNearest | morseping.cpp:94-104 | the saturated result is the representable value nearest to the true difference |
| Synthesis.LowPass | morseping.cpp:154 | the accumulator update `acc += in * 2^8 - acc / 2^8` with C division; LowPassStaysInt32 proves it stays a 32-bit `int` |
| Synthesis.HighPass | morseping.cpp:155 | the stage output, the input minus the narrowed average acc / 2^16, saturated; AverageFitsI16 proves the narrowing exact and HighPassBlocksConstant proves that a constant input gives 0 |
| Synthesis.LowPassStaysInt32 | morseping.cpp:154 | the accumulator update of a high-pass stage never overflows a 32-bit `int` |
| Synthesis.AverageFitsI16 | morseping.cpp:155 | the average acc / 2^16 passed to `mp_subtract_safe` is always an `int16_t`, so narrowing it changes nothing |
| Synthesis.HighPassBlocksConstant | morseping.cpp:151-163 | a stage settled on a constant input stays there and outputs 0 |
| Synthesis.Filter | morseping.cpp:188 | the two stages, f2 first, leave the phase and produce a saturated sample |
| Synthesis.FilterPreservesInv | morseping.cpp:188 | filtering keeps both accumulators 32-bit and the held sample saturated |
| Synthesis.LeadTime | morseping.cpp:180 | the number of unread values the skip loop leaves, `freq / 50 + 2` with C division; Skip's contract is stated in terms of it |
| Synthesis.Skip | morseping.cpp:180-181 | the skip loop never moves the cursor back, leaves at most freq / 50 + 2 values unread, and when it moves leaves exactly that many |
| Synthesis.ScaleWrapsBeforeClamp | morseping.cpp:183-184 | 43 * 768 = 33024 wraps to -32512 instead of saturating |
| Synthesis.ScaleFitsInt32 | morseping.cpp:184 | a jitter sample times an amplitude in [0, 32767] fits a 32-bit `int` |
| Synthesis.Scale | morseping.cpp:183-184 | the read sample `mp_subtract_safe(buffer[y] * amp, 0)`: the product narrowed to `int16_t`, then saturated; ScaleWrapsBeforeClamp shows the wrap and ScaleFitsInt32 that the product fits an `int` |
| Synthesis.Resample | morseping.cpp:177-186 | the cursor only moves forward and stays within the buffer |
| Synthesis.ResampleCases | morseping.cpp:177-186 | below the sample rate the phase advances by freq and the held sample stays; at a wrap the phase drops by 8000 and fewer than freq / 50 + 2 values remain unread; a read sample is the scaled value just before the cursor |
| Synthesis.Step | morseping.cpp:176-190 | one output step moves the cursor forward within the buffer and emits the new held sample, which is saturated |
| Synthesis.Steps | morseping.cpp:176-190 | n steps emit n samples after those already produced |
| Synthesis.StepsSaturated | morseping.cpp:188-189 | every emitted sample lies in [-32767, 32767] |
| Synthesis.StepsPhase | morseping.cpp:177-179 | after n steps the phase is the n-fold fractional-rate counter update |
| Synthesis.StepPreservesInv | morseping.cpp:176-190 | for frequencies up to the sample rate a step keeps the phase below 8000, the held sample saturated and the accumulators 32-bit |
| Synthesis.StepsPreserveInv | morseping.cpp:176-190 | n steps keep that invariant |
| Synthesis.PhaseAfterIsModular | morseping.cpp:177-179 | the counter is exact: after n steps the phase is (rem + n * freq) mod 8000 |
| Synthesis.Advance | morseping.cpp:177-179 | the phase after one sample: rem + freq, minus 8000 once it reaches the sample rate; PhaseAfterIsModular proves n of them exact modulo 8000 |
| Synthesis.PhaseAfter | morseping.cpp:177-179 | the phase after n samples, n applications of Advance; StepsPhase proves the synthesiser follows it and PhaseAfterIsModular gives it in closed form |
| Synthesis.Generate | morseping.cpp:165-196 | a backlogged device (delay of at least 256 bytes) changes nothing and writes nothing; otherwise 128 samples are produced and the unread jitter values, a suffix of the buffer, remain |
| Synthesis.GeneratePreservesInv | morseping.cpp:165-196 | a generated block keeps the synthesiser invariant and the sample range of the buffer, and holds only saturated samples |
| Synthesis.GeneratePhase | morseping.cpp:176-179 | after a block the phase has advanced by 128 * freq modulo 8000 |
| Process.Initial | morseping.cpp:368-375 | the initial state satisfies the invariant, has no request pending, no reactor and an empty buffer |
| Process.TimerPeriod | morseping.cpp:313 | the timer period `1000 / freq + 1` is at least one millisecond |
| Process.TimerPeriodBounds | morseping.cpp:313 | the period is the shortest whole number of milliseconds whose rate is below freq |
| Process.Service | morseping.cpp:291-324 | with no request nothing changes. Otherwise the request and the buffer are cleared and a report is made. It is ok exactly when all three handles and the kqueue are valid, and then carries the timer period; a failure records `errno`. A full request sets the three handles and the target address to what the configuration functions returned; any other request keeps them. Settings, synthesiser and counters are kept |
| Process.Reopen | morseping.cpp:293-301 | a full request installs the target address and the three handles the configuration functions returned; Service's contract states the result |
| Process.Settle | morseping.cpp:302-323 | the reactor is the kqueue only when all three handles are open, request and buffer are cleared, and the outcome is reported, a failure with `errno`; Service's contract states the result |
| Process.Timer | morseping.cpp:337-342 | a tick sends BurstSize probes starting at the sequence counter, advances the counter past them, advances the burst counter modulo 3, posts a full request only when a written block failed, and keeps every setting |
| Process.BurstSize | morseping.cpp:338 | the burst of one tick: `send_state` probes while the button is held, otherwise one; KeyedBurstCycle proves the 0, 1, 2 rotation |
| Process.Ping | morseping.cpp:338-340 | `mp_send` of BurstSize probes, then the sequence counter moved past them and `send_state` advanced modulo 3; Timer's contract states the result |
| Process.PlayAudio | morseping.cpp:165-196 | `mp_generate_audio` on the worker state: Generate on the synthesiser and the buffer, and a full request posted when a written block failed; TimerAudio proves what it changes within a tick |
| Process.TimerAudio | morseping.cpp:165-196 | a backlogged tick changes no audio or jitter state; otherwise it plays 128 samples; in both cases `last[]` is kept and only a prefix of the buffer is dropped |
| Process.HandleEvent | morseping.cpp:334-342 | a readable event drains the socket into the receiver state and outputs nothing; a timer event runs one Timer tick and outputs its burst and block |
| Process.Dispatch | morseping.cpp:334-343 | the event loop keeps every setting and outputs at most one entry per event |
| Process.KeyedBurstCycle | morseping.cpp:338-340 | with the button held, three ticks send 0, 1 and 2 probes in some rotation and the counter returns; without it every tick sends one |
| Process.CString | morseping.cpp:445-448 | the copied name is a NUL-free prefix of the text of at most 255 characters, cut at the text's end, at the limit or at a NUL |
| Process.ConfigApply | morseping.cpp:441-451 | both names are stored as C strings, each a prefix of its text cut at the text's end, at 255 characters or at a NUL, and a full request is posted over any pending one; nothing else changes |
| Process.FreqApply | morseping.cpp:453-461 | the frequency is stored; a timer-only request is posted exactly when the sound device is open and nothing was pending; in every other case the request flag is left as it was |
| Process.AmpApply | morseping.cpp:463-468 | `handle_amp_apply` stores the amplitude and nothing else; NextPreservesInv proves it keeps the invariant for the values the knob emits |
| Process.MorseOn | morseping.cpp:471-476 | `handle_morse_on` sets `doit` and nothing else; NextPreservesInv proves it keeps the invariant |
| Process.MorseOff | morseping.cpp:479-484 | `handle_morse_off` clears `doit` and nothing else; NextPreservesInv proves it keeps the invariant |
| Process.TimerPreservesInv | morseping.cpp:337-342 | a tick keeps the worker invariant |
| Process.DispatchPreservesInv | morseping.cpp:334-343 | the event loop keeps the worker invariant |
| Process.NextPreservesInv | morseping.cpp:289-343 | every slot call with a value the knobs can emit, every servicing pass and every wake keeps the invariant |
| Process.Next | morseping.cpp:289-343 | one atomic step: a slot call, a servicing pass, or a wake that dispatches the events or, with no reactor, sleeps and changes nothing; NextPreservesInv, FailedConfigurationWaits and InitiallyIdle are about it |
| Process.Run | morseping.cpp:289-343 | the invariant holds after any interleaving of slot calls and worker phases |
| Process.FailedConfigurationWaits | morseping.cpp:316-330 | after a failed configuration the worker neither services nor dispatches until a slot posts a request |
| Process.InitiallyIdle | morseping.cpp:285-330 | from the initial state nothing is serviced or dispatched before the first request |
| WorkerLoop.Worker.constructor | morseping.cpp:368-375 | the fields start as Initial describes |
| WorkerLoop.Worker.Send | morseping.cpp:75-92 | the loop sends exactly Burst of the counter and advances the counter by num modulo 2^16, changing nothing else |
| WorkerLoop.Worker.RecordReply | morseping.cpp:140-146 | `last[]` and the buffer change as Record says, in place in the array |
| WorkerLoop.Worker.Recv | morseping.cpp:107-149 | the receive loop leaves the receiver state equal to Drain of the old state and changes nothing else |
| WorkerLoop.Worker.HpF1 | morseping.cpp:151-156 | the first stage updates its accumulator by LowPass and returns HighPass |
| WorkerLoop.Worker.HpF2 | morseping.cpp:158-163 | the second stage updates its accumulator by LowPass and returns HighPass |
| WorkerLoop.Worker.ResampleStep | morseping.cpp:177-187 | the phase update, the skip loop and the read leave phase, held sample and cursor as Resample says |
| WorkerLoop.Worker.FilterStep | morseping.cpp:188 | `last_sample = mp_hp_f1(mp_hp_f2(last_sample))` is Filter of the narrowed held sample |
| WorkerLoop.Worker.OutputStep | morseping.cpp:176-189 | one pass of the 128-sample loop is one Step |
| WorkerLoop.Worker.Synthesize | morseping.cpp:176-190 | the 128-sample loop fills a fresh block with the samples of Steps and leaves synthesiser and cursor where Steps does |
| WorkerLoop.Worker.Compact | morseping.cpp:193-195 | the copy loop moves the unread values to the front of the array in place, sets `bufpos` to their count and leaves the slots after them untouched |
| WorkerLoop.Worker.Retire | morseping.cpp:191-195 | a failed write posts a full request, then the read values are dropped |
| WorkerLoop.Worker.PlayBlock | morseping.cpp:176-195 | synthesis, write and compaction together are PlayAudio of a device that is not backlogged |
| WorkerLoop.Worker.GenerateAudio | morseping.cpp:165-196 | `mp_generate_audio` is PlayAudio: the early return on a backlogged device, otherwise the block written and the state after it |
| WorkerLoop.Worker.Ping | morseping.cpp:338-340 | sending with the burst size from `doit` and `send_state`, then the counter update, is Process.Ping |
| WorkerLoop.Worker.OnTimer | morseping.cpp:337-342 | the timer branch is Timer: same burst, same block, same new state |
| WorkerLoop.Worker.DispatchEvents | morseping.cpp:334-343 | the event loop is Dispatch: same outputs in the same order, same new state |
| WorkerLoop.Worker.Service | morseping.cpp:291-324 | the configure branch is Service: same new state and report |
| WorkerLoop.Worker.Reopen | morseping.cpp:293-301 | a full request replaces the target address and the three handles with what the configuration functions returned |
| WorkerLoop.Worker.Settle | morseping.cpp:302-323 | the reactor rebuild, request and buffer reset, and report are Settle |
| WorkerLoop.Worker.HandleConfigApply | morseping.cpp:441-451 | the slot is ConfigApply on the object's state |
| WorkerLoop.Worker.HandleFreqApply | morseping.cpp:453-461 | the slot is FreqApply on the object's state |
| WorkerLoop.Worker.HandleAmpApply | morseping.cpp:463-469 | the slot stores the amplitude and nothing else |
| WorkerLoop.Worker.HandleMorseOn | morseping.cpp:471-477 | the slot sets `doit` and nothing else |
| WorkerLoop.Worker.HandleMorseOff | morseping.cpp:479-485 | the slot clears `doit` and nothing else |
| Knob.Clamp | morseping.cpp:559-567 | the clamp of `setValue` keeps values inside the range, maps values above it to the maximum and values below it to the minimum, and always lands inside a non-empty range |
| Knob.DragDirection | morseping.cpp:527-542 | dragging up never lowers the knob's value and dragging down never raises it |
| Knob.DragFullSpan | morseping.cpp:531-536 | a drag of 128 pixels or more reaches the maximum (upward) or the minimum (downward) from any position |
| Knob.DragTarget | morseping.cpp:531-536 | the value during a drag: the position plus the drag height times the range size over 128, truncated toward zero, then clamped; DragDirection and DragFullSpan prove it monotone in the drag and reaching both ends |
| Knob.Volume.Value | morseping.cpp:553-557 | in a valid knob the displayed value lies in [min, max] |
| Knob.Volume.constructor | morseping.cpp:487-496 | every field starts at zero except the middle mark, which is 1, so the knob starts valid |
| Knob.Volume.SetRange | morseping.cpp:544-551 | the position moves to the bottom of the new range, and the knob is valid exactly when the range is non-empty and the old drag offset still fits |
| Knob.Volume.SetValue | morseping.cpp:559-574 | the position becomes the clamped value, the drag offset is zeroed, the new position is signalled, and in a non-empty range the knob is valid |
| Knob.Volume.MousePress | morseping.cpp:503-511 | a left press starts a drag at the mouse height with a zero offset; other buttons change nothing; validity is kept |
| Knob.Volume.MouseRelease | morseping.cpp:513-525 | a left release folds the offset into the position, zeroes it and signals it; the displayed value and validity are kept |
| Knob.Volume.MouseMove | morseping.cpp:527-542 | while dragging, the value becomes DragTarget of the position and is signalled; otherwise nothing changes; validity is kept |
| Knob.Volume.Enter | morseping.cpp:576-581 | entering sets the focus flag |
| Knob.Volume.Leave | morseping.cpp:583-588 | leaving clears the focus flag |

## Left out

- Qt user interface: layout, painting (`paintEvent` uses floating point), the `update()` repaints and `main`. Only the knob's integer value logic is modelled.
- `handle_config_ok` and `handle_config_fail` (morseping.cpp:417-427): they only set label text, with `strerror` for the failure. A servicing pass returns `Process.Report` instead.
- `mp_config_audio`, `mp_config_send` and `mp_config_recv` (morseping.cpp:198-278): foreign socket, `ioctl` and `open` calls, including `inet_aton`. Their results are the inputs `Process.Reopened`.
- The `close` calls on old handles and on the old kqueue descriptor: they have no effect on the modelled state.
- The `kevent` registration calls (morseping.cpp:310-314): their results are ignored by the code. Only the timer period they install is modelled, as the one reported.
- Return values of `send` and `write`: `send` is ignored by the code, and `write` is only checked for failure (the `writeOk` input).
- Packet decoding in `mp_recv` (morseping.cpp:132-134): the IP header length and the struct overlay of raw bytes are not modelled. A received datagram is the decoded fields `Receiver.Reply`. The code never checks the received length against the header length.
- Concurrency: the mutex, the worker thread and the lock release points. Slot calls and the two locked worker phases are atomic steps (`Process.Action`), interleaved in any order.
- Timing: the one-second `usleep` backoff and the one-second `kevent` timeout. A wake with no reactor changes nothing.
- The `toLatin1()` conversion of the edit fields in `handle_config_apply` (morseping.cpp:445, 447): it maps every character outside Latin-1 to '?'. `Process.CString` copies the text as given, so the inputs stand for the already converted text.
- The event batch of one wake: `kevent` returns at most two events (morseping.cpp:331), one per registered filter. `Process.Wake` and `Process.Dispatch` accept batches of any length, which covers every batch the code can receive.
- `last[2]`: it is declared in the header but never used.
- The `zstart`/`zend` bulk clear is replaced by the explicit initial state `Process.Initial`.
- Process.Next: slot values outside what the two knobs emit (frequency 1..1000, amplitude 0..32767) are excluded from the invariant by `Process.Allowed`, so 32-bit overflow of `freq` and `amp` arithmetic is not modelled.
- Knob.Volume.MouseMove: the product `(y_pos - y) * (max - min + 1)` is computed on unbounded integers. The C `int` product overflows only for mouse movements beyond 65535 pixels on the volume knob's range.
