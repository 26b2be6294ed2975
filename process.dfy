/**
 * The worker and its shared state as values: the fields of `MPMainWindow`
 * that `mp_process` and the Qt slots read and write, the servicing branch of
 * `mp_process` that (re)opens the sockets and the sound device, the event
 * dispatch loop, and the slots that post configuration requests. The
 * operating-system calls are inputs: a servicing pass is told which handles
 * the three `mp_config_*` functions returned, what `kqueue` returned and the
 * `errno` left behind; an event is told which datagrams are pending, what
 * the output-delay query returned and whether `write` succeeded.
 */
module Process {
  import opened Wrappers
  import opened FixedWidth
  import opened Checksum
  import opened Icmp
  import opened Receiver
  import opened Synthesis

  /** Values of the `configure` request flag. */
  const NO_REQUEST: int := 0
  const FULL_REQUEST: int := 1
  const TIMER_REQUEST: int := 2

  /** Longest name the `char[256]` fields `dsp` and `gw` hold. */
  const NAME_MAX: nat := 255
  const FREQ_MIN: int := 1
  const FREQ_MAX: int := 1000

  /** The fields of the main window that the worker uses. `jitter` holds
      `last[0]`, `last[1]` and `buffer[0..bufpos)`; `synth` holds `rem`,
      `last_sample` and both filter accumulators; `reactor` is the kqueue
      descriptor `g` that `mp_process` keeps between iterations. */
  datatype WState = WState(
    configure: int, doit: bool, freq: int, amp: int,
    sendSocket: int, recvSocket: int, audioFd: int,
    jitter: Jitter, synth: Synth, error: int,
    dsp: string, gw: string, seqNo: u16, sendState: int,
    sendTo: SockAddr, reactor: int)

  /** A C string as the `char[256]` fields hold it: no NUL inside, at most 255 characters. */
  predicate IsName(s: string)
  {
    |s| <= NAME_MAX && '\0' !in s
  }

  /** What the worker state satisfies at every point where the lock is free. */
  predicate Inv(w: WState)
  {
    && (w.configure == NO_REQUEST || w.configure == FULL_REQUEST || w.configure == TIMER_REQUEST)
    && FREQ_MIN <= w.freq <= FREQ_MAX
    && 0 <= w.amp <= SAMPLE_MAX
    && Receiver.Inv(w.jitter)
    && SynthInv(w.synth)
    && 0 <= w.sendState < 3
    && IsName(w.dsp) && IsName(w.gw)
  }

  /** The state after the constructor's bulk clear and its assignments,
      before the worker thread starts: no request, no handles, no reactor. */
  function Initial(): (w: WState)
    ensures Inv(w)
    ensures w.configure == NO_REQUEST && w.reactor < 0 && w.jitter.queue == []
  {
    WState(NO_REQUEST, false, 50, 768, -1, -1, -1, Jitter(0, 0, []), Synth(0, 0, 0, 0), 0,
           "/dev/dsp", "127.0.0.1", 0, 0, 0, -1)
  }

  // ---------------------------------------------------------------------
  // The servicing branch of mp_process.

  /** The results of `mp_config_send` (which also rewrites `send_to`),
      `mp_config_recv` and `mp_config_audio`. */
  datatype Reopened = Reopened(sendTo: SockAddr, sendSocket: int, recvSocket: int, audioFd: int)

  /** Everything the operating system decides in one servicing pass. */
  datatype Os = Os(reopened: Reopened, kq: int, errno: int)

  /** The signal a servicing pass emits to the window: the configuration
      worked (with the timer period it registered) or failed with an error. */
  datatype Report = ConfigOk(timerPeriodMs: int) | ConfigFailed(error: int)

  /** The timer period `(1000 / freq) + 1` in milliseconds: the shortest
      whole-millisecond period whose rate is below freq. */
  function TimerPeriod(freq: int): (ms: int)
    requires freq > 0
    ensures ms >= 1
  {
    CDiv(1000, freq) + 1
  }

  /** The period's rate is below freq and one millisecond less would not be. */
  lemma TimerPeriodBounds(freq: int)
    requires freq > 0
    ensures (TimerPeriod(freq) - 1) * freq <= 1000 < TimerPeriod(freq) * freq
  {
    CDivBounds(1000, freq);
  }

  predicate HandlesOpen(w: WState)
  {
    w.sendSocket >= 0 && w.recvSocket >= 0 && w.audioFd >= 0
  }

  /** One pass of the `if (mw->configure)` branch. */
  function Service(w: WState, os: Os): (r: (WState, Option<Report>))
    requires w.freq > 0
    ensures w.configure == NO_REQUEST ==> r == (w, None)
    ensures w.configure != NO_REQUEST ==>
      && r.0.configure == NO_REQUEST
      && r.0.jitter == w.jitter.(queue := [])
      && r.1.Some?
      && (r.1.value.ConfigOk? <==> HandlesOpen(r.0) && os.kq >= 0)
      && (r.1.value.ConfigOk? ==> r.1.value.timerPeriodMs == TimerPeriod(w.freq) && r.0.reactor == os.kq && r.0.error == w.error)
      && (r.1.value.ConfigFailed? ==> r.1.value.error == os.errno && r.0.error == os.errno && r.0.reactor < 0)
    ensures w.configure != FULL_REQUEST ==>
      r.0.sendSocket == w.sendSocket && r.0.recvSocket == w.recvSocket && r.0.audioFd == w.audioFd && r.0.sendTo == w.sendTo
    ensures w.configure == FULL_REQUEST ==>
      && r.0.sendSocket == os.reopened.sendSocket && r.0.recvSocket == os.reopened.recvSocket
      && r.0.audioFd == os.reopened.audioFd && r.0.sendTo == os.reopened.sendTo
    ensures r.0.synth == w.synth && r.0.freq == w.freq && r.0.amp == w.amp && r.0.doit == w.doit
    ensures r.0.seqNo == w.seqNo && r.0.sendState == w.sendState && r.0.dsp == w.dsp && r.0.gw == w.gw
  {
    if w.configure == NO_REQUEST then (w, None)
    else Settle(if w.configure == FULL_REQUEST then Reopen(w, os.reopened) else w, os)
  }

  /** A full request closes and reopens the two sockets and the sound
      device; `mp_config_send` also rewrites the target address. */
  function Reopen(w: WState, h: Reopened): WState
  {
    w.(sendTo := h.sendTo, sendSocket := h.sendSocket, recvSocket := h.recvSocket, audioFd := h.audioFd)
  }

  /** The rest of the servicing pass: a reactor only when all three handles
      are open, the request and the jitter buffer cleared, the outcome
      reported (a failure also records `errno`). */
  function Settle(w: WState, os: Os): (WState, Option<Report>)
    requires w.freq > 0
  {
    var g := if !HandlesOpen(w) then -1 else os.kq;
    var h := w.(reactor := g, configure := NO_REQUEST, jitter := w.jitter.(queue := []));
    if g < 0 then (h.(error := os.errno), Some(ConfigFailed(os.errno)))
    else (h, Some(ConfigOk(TimerPeriod(w.freq))))
  }

  // ---------------------------------------------------------------------
  // The event dispatch loop of mp_process.

  /** The fields an event never changes. */
  predicate SameSettings(w: WState, w': WState)
  {
    && w'.freq == w.freq && w'.amp == w.amp && w'.doit == w.doit
    && w'.sendSocket == w.sendSocket && w'.recvSocket == w.recvSocket && w'.audioFd == w.audioFd
    && w'.sendTo == w.sendTo && w'.reactor == w.reactor && w'.error == w.error
    && w'.dsp == w.dsp && w'.gw == w.gw
  }

  /** The number of probes one timer tick sends: the burst counter while the
      morse button is held, otherwise a single heartbeat probe. */
  function BurstSize(doit: bool, sendState: int): int
  {
    if doit then sendState else 1
  }

  /** A tick of the timer: send the burst, advance the burst counter modulo
      3, produce audio. The block, if one was produced, is what `write` was
      given; a failed write posts a full reconfiguration request. */
  datatype TimerResult = TimerResult(w: WState, sent: seq<seq<byte>>, played: Option<seq<int>>)

  function Timer(w: WState, odelay: Option<int>, writeOk: bool, order: ByteOrder): (r: TimerResult)
    requires w.freq > 0 && 0 <= w.sendState
    ensures r.sent == Burst(w.seqNo, BurstSize(w.doit, w.sendState), order)
    ensures r.w.seqNo == ToU16(w.seqNo + |r.sent|)
    ensures r.w.sendState == (w.sendState + 1) % 3
    ensures r.w.configure == if r.played.Some? && !writeOk then FULL_REQUEST else w.configure
    ensures SameSettings(w, r.w)
  {
    var p := Ping(w, order);
    var a := PlayAudio(p.0, odelay, writeOk);
    TimerResult(a.0, p.1, a.1)
  }

  /** The sending half of a tick, `mp_send` followed by the counter update:
      the burst, the sequence counter moved past it, the burst counter
      advanced modulo 3. */
  function Ping(w: WState, order: ByteOrder): (WState, seq<seq<byte>>)
    requires 0 <= w.sendState
  {
    var num := BurstSize(w.doit, w.sendState);
    (w.(seqNo := ToU16(w.seqNo + num), sendState := (w.sendState + 1) % 3), Burst(w.seqNo, num, order))
  }

  /** `mp_generate_audio` on the worker state: the block it hands to `write`,
      if any, and the state afterwards. */
  function PlayAudio(w: WState, odelay: Option<int>, writeOk: bool): (WState, Option<seq<int>>)
    requires w.freq > 0
  {
    var a := Generate(w.synth, w.jitter.queue, w.freq, w.amp, odelay);
    (w.(synth := a.synth, jitter := w.jitter.(queue := a.queue),
        configure := if a.block.Some? && !writeOk then FULL_REQUEST else w.configure),
     a.block)
  }

  /** The audio half of a tick: skipped when the device is backlogged, with
      nothing changed; otherwise one block of 128 samples, the consumed
      jitter values dropped from the front, `last[]` untouched. */
  lemma TimerAudio(w: WState, odelay: Option<int>, writeOk: bool, order: ByteOrder)
    requires w.freq > 0 && 0 <= w.sendState
    ensures var r := Timer(w, odelay, writeOk, order);
      && (Backlogged(odelay) ==> r.played == None && r.w.synth == w.synth && r.w.jitter == w.jitter && r.w.configure == w.configure)
      && (!Backlogged(odelay) ==> r.played.Some? && |r.played.value| == BLOCK_SAMPLES)
      && r.w.jitter.last0 == w.jitter.last0 && r.w.jitter.last1 == w.jitter.last1
      && |r.w.jitter.queue| <= |w.jitter.queue|
      && r.w.jitter.queue == w.jitter.queue[|w.jitter.queue| - |r.w.jitter.queue|..]
  {
  }

  /** A reactor event: the receive socket is readable (with the datagrams
      pending until `recvmsg` would block), or the timer expired. */
  datatype Event = Readable(replies: seq<Reply>) | Expired(odelay: Option<int>, writeOk: bool)

  /** What a batch of events sent and played, one entry per timer event. */
  datatype Output = Output(sent: seq<seq<byte>>, played: Option<seq<int>>)

  function HandleEvent(w: WState, e: Event, order: ByteOrder): (r: (WState, seq<Output>))
    requires w.freq > 0 && 0 <= w.sendState
    ensures e.Readable? ==> r.1 == [] && r.0 == w.(jitter := Drain(w.jitter, e.replies, w.sendTo))
    ensures e.Expired? ==> var t := Timer(w, e.odelay, e.writeOk, order);
      r.0 == t.w && r.1 == [Output(t.sent, t.played)]
  {
    match e
    case Readable(replies) => (w.(jitter := Drain(w.jitter, replies, w.sendTo)), [])
    case Expired(odelay, writeOk) =>
      var t := Timer(w, odelay, writeOk, order);
      (t.w, [Output(t.sent, t.played)])
  }

  /** The `for (x = 0; x < n; x++)` loop over the events one `kevent` returned. */
  function Dispatch(w: WState, events: seq<Event>, order: ByteOrder): (r: (WState, seq<Output>))
    requires w.freq > 0 && 0 <= w.sendState
    ensures SameSettings(w, r.0) && 0 <= r.0.sendState
    ensures |r.1| <= |events|
    decreases |events|
  {
    if events == [] then (w, [])
    else
      var p := Dispatch(w, events[..|events| - 1], order);
      var e := events[|events| - 1];
      var q := HandleEvent(p.0, e, order);
      (q.0, p.1 + q.1)
  }

  /** Three ticks in a row while the morse button is held send bursts of
      0, 1 and 2 probes in some rotation (Timer sends BurstSize probes and
      advances the counter modulo 3), and bring the counter back to where it
      started; without the button every tick sends one probe. */
  lemma KeyedBurstCycle(doit: bool, s0: int)
    requires 0 <= s0 < 3
    ensures var s1 := (s0 + 1) % 3; var s2 := (s1 + 1) % 3;
      && (s2 + 1) % 3 == s0
      && (doit ==> multiset{BurstSize(doit, s0), BurstSize(doit, s1), BurstSize(doit, s2)} == multiset{0, 1, 2})
      && (!doit ==> BurstSize(doit, s0) == 1 && BurstSize(doit, s1) == 1 && BurstSize(doit, s2) == 1)
  {
    if doit {
      if s0 == 0 {
        assert multiset{BurstSize(doit, 0), BurstSize(doit, 1), BurstSize(doit, 2)} == multiset{0, 1, 2};
      } else if s0 == 1 {
        assert multiset{BurstSize(doit, 1), BurstSize(doit, 2), BurstSize(doit, 0)} == multiset{1, 2, 0};
      } else {
        assert multiset{BurstSize(doit, 2), BurstSize(doit, 0), BurstSize(doit, 1)} == multiset{2, 0, 1};
      }
    }
  }

  // ---------------------------------------------------------------------
  // The Controller's slots.

  /** What `strncpy` into a buffer with room characters followed by a NUL
      leaves as a C string: text up to its first NUL, cut at room characters. */
  function CString(text: string, room: nat): (r: string)
    ensures |r| <= room && r <= text && '\0' !in r
    ensures |r| == |text| || |r| == room || text[|r|] == '\0'
  {
    if room == 0 || text == [] || text[0] == '\0' then []
    else [text[0]] + CString(text[1..], room - 1)
  }

  /** `handle_config_apply`: copy both edit fields into `dsp` and `gw` and
      post a full reconfiguration request, whatever request was pending. */
  function ConfigApply(w: WState, dspText: string, gwText: string): (r: WState)
    ensures r.configure == FULL_REQUEST
    ensures IsName(r.dsp) && r.dsp <= dspText && IsName(r.gw) && r.gw <= gwText
    ensures |r.dsp| == |dspText| || |r.dsp| == NAME_MAX || dspText[|r.dsp|] == '\0'
    ensures |r.gw| == |gwText| || |r.gw| == NAME_MAX || gwText[|r.gw|] == '\0'
    ensures r == w.(configure := r.configure, dsp := r.dsp, gw := r.gw)
  {
    w.(dsp := CString(dspText, NAME_MAX), gw := CString(gwText, NAME_MAX), configure := FULL_REQUEST)
  }

  /** `handle_freq_apply`: store the frequency; post a timer-only request
      when the sound device is open and nothing is pending, so a pending
      full request is never downgraded. */
  function FreqApply(w: WState, value: int): (r: WState)
    ensures r.freq == value
    ensures r.configure == TIMER_REQUEST <==> w.configure == TIMER_REQUEST || (w.configure == NO_REQUEST && w.audioFd >= 0)
    ensures !(w.configure == NO_REQUEST && w.audioFd >= 0) ==> r.configure == w.configure
    ensures r == w.(freq := value, configure := r.configure)
  {
    w.(freq := value, configure := if w.audioFd > -1 && w.configure == NO_REQUEST then TIMER_REQUEST else w.configure)
  }

  /** `handle_amp_apply`, `handle_morse_on` and `handle_morse_off` store one field each. */
  function AmpApply(w: WState, value: int): WState { w.(amp := value) }
  function MorseOn(w: WState): WState { w.(doit := true) }
  function MorseOff(w: WState): WState { w.(doit := false) }

  // ---------------------------------------------------------------------
  // Interleaving: the Controller's slots and the two locked phases of the
  // worker loop, in any order.

  datatype Action =
    | ApplyConfig(dspText: string, gwText: string)
    | ApplyFreq(value: int)
    | ApplyAmp(value: int)
    | PressMorse
    | ReleaseMorse
    | ServiceRequests(os: Os)
    | Wake(events: seq<Event>)

  /** The values the two knobs can emit (their ranges are 1..1000 and 0..0x7FFF). */
  predicate Allowed(a: Action)
  {
    && (a.ApplyFreq? ==> FREQ_MIN <= a.value <= FREQ_MAX)
    && (a.ApplyAmp? ==> 0 <= a.value <= SAMPLE_MAX)
  }

  /** One atomic step. A wake-up with no reactor is the one-second sleep:
      it changes nothing. */
  function Next(w: WState, a: Action, order: ByteOrder): WState
    requires w.freq > 0 && 0 <= w.sendState
  {
    match a
    case ApplyConfig(d, g) => ConfigApply(w, d, g)
    case ApplyFreq(v) => FreqApply(w, v)
    case ApplyAmp(v) => AmpApply(w, v)
    case PressMorse => MorseOn(w)
    case ReleaseMorse => MorseOff(w)
    case ServiceRequests(os) => Service(w, os).0
    case Wake(events) => if w.reactor < 0 then w else Dispatch(w, events, order).0
  }

  lemma TimerPreservesInv(w: WState, odelay: Option<int>, writeOk: bool, order: ByteOrder)
    requires Inv(w)
    ensures Inv(Timer(w, odelay, writeOk, order).w)
  {
    TimerAudio(w, odelay, writeOk, order);
    GeneratePreservesInv(w.synth, w.jitter.queue, w.freq, w.amp, odelay);
  }

  lemma {:induction false} DispatchPreservesInv(w: WState, events: seq<Event>, order: ByteOrder)
    requires Inv(w)
    ensures Inv(Dispatch(w, events, order).0)
    decreases |events|
  {
    if events != [] {
      var p := Dispatch(w, events[..|events| - 1], order);
      DispatchPreservesInv(w, events[..|events| - 1], order);
      match events[|events| - 1]
      case Readable(replies) =>
        DrainPreservesInv(p.0.jitter, replies, p.0.sendTo);
      case Expired(odelay, writeOk) =>
        TimerPreservesInv(p.0, odelay, writeOk, order);
    }
  }

  /** Every allowed step keeps the invariant. */
  lemma NextPreservesInv(w: WState, a: Action, order: ByteOrder)
    requires Inv(w) && Allowed(a)
    ensures Inv(Next(w, a, order))
  {
    match a
    case Wake(events) =>
      if w.reactor >= 0 {
        DispatchPreservesInv(w, events, order);
      }
    case _ =>
  }

  /** The state after a sequence of allowed steps from w: the invariant holds throughout. */
  function Run(w: WState, actions: seq<Action>, order: ByteOrder): (r: WState)
    requires Inv(w)
    requires forall k :: 0 <= k < |actions| ==> Allowed(actions[k])
    ensures Inv(r)
    decreases |actions|
  {
    if actions == [] then w
    else
      var p := Run(w, actions[..|actions| - 1], order);
      NextPreservesInv(p, actions[|actions| - 1], order);
      Next(p, actions[|actions| - 1], order)
  }

  /** No automatic retry: after a failed configuration the worker neither
      services nor dispatches again until a slot posts a new request. */
  lemma FailedConfigurationWaits(w: WState, os: Os, os': Os, events: seq<Event>, order: ByteOrder)
    requires Inv(w)
    requires var r := Service(w, os); r.1.Some? && r.1.value.ConfigFailed?
    ensures var w1 := Service(w, os).0;
      && Service(w1, os') == (w1, None)
      && Next(w1, Wake(events), order) == w1
  {
  }

  /** From the initial state nothing is opened and nothing is sent until
      the first "Apply config". */
  lemma InitiallyIdle(os: Os, events: seq<Event>, order: ByteOrder)
    ensures Service(Initial(), os) == (Initial(), None)
    ensures Next(Initial(), Wake(events), order) == Initial()
  {
  }
}
