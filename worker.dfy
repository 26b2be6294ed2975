/**
 * The worker as the source writes it: the fields of `MPMainWindow` updated
 * in place by `mp_send`, `mp_recv`, the two filter stages,
 * `mp_generate_audio`, the two phases of `mp_process` and the Qt slots.
 * Every method is proved to leave the object in the state the value-level
 * functions of `Process`, `Synthesis` and `Receiver` describe.
 */
module WorkerLoop {
  import opened Wrappers
  import opened FixedWidth
  import opened Checksum
  import opened Icmp
  import opened Receiver
  import opened Synthesis
  import opened Process

  class Worker {
    /** Host byte order, fixed for the machine. */
    const order: ByteOrder
    /** `int buffer[MP_BUFFER_MS_MAX]`: the jitter samples not yet played. */
    const buffer: array<int>

    var configure: int
    var doit: bool
    var freq: int
    var amp: int
    var sendSocket: int
    var recvSocket: int
    var audioFd: int
    var last0: int
    var last1: int
    var rem: int
    var error: int
    var lastSample: int
    var bufpos: int
    var dsp: string
    var gw: string
    var seqNo: u16
    var lowPass1: int
    var lowPass2: int
    var sendState: int
    var sendTo: SockAddr
    /** The kqueue descriptor `g` that `mp_process` keeps between iterations. */
    var reactor: int

    predicate Valid()
      reads this
    {
      buffer.Length == BUFFER_MAX && 0 <= bufpos <= BUFFER_MAX
    }

    function JitterOf(): Jitter
      reads this, buffer
      requires Valid()
    {
      Jitter(last0, last1, buffer[..bufpos])
    }

    function SynthOf(): Synth
      reads this
    {
      Synth(rem, lastSample, lowPass1, lowPass2)
    }

    /** The object's fields as a worker state. */
    function State(): WState
      reads this, buffer
      requires Valid()
    {
      WState(configure, doit, freq, amp, sendSocket, recvSocket, audioFd,
             JitterOf(), SynthOf(), error, dsp, gw, seqNo, sendState, sendTo, reactor)
    }

    /** The constructor's bulk clear of the fields followed by its explicit
        assignments; the worker's `g` starts at -1. */
    constructor(order: ByteOrder)
      ensures Valid() && State() == Initial() && this.order == order
    {
      this.order := order;
      buffer := new int[BUFFER_MAX];
      configure, doit, freq, amp := NO_REQUEST, false, 50, 768;
      sendSocket, recvSocket, audioFd := -1, -1, -1;
      last0, last1, rem, error, lastSample, bufpos := 0, 0, 0, 0, 0, 0;
      dsp, gw := "/dev/dsp", "127.0.0.1";
      seqNo, lowPass1, lowPass2, sendState, sendTo := 0, 0, 0, 0, 0;
      reactor := -1;
    }

    /** `mp_send`: num Echo Requests, each checksummed with `mp_in_cksum`
        over its header with a zero checksum field. */
    method Send(num: nat) returns (sent: seq<seq<byte>>)
      requires Valid()
      modifies this`seqNo
      ensures Valid() && sent == Burst(old(seqNo), num, order)
      ensures State() == old(State()).(seqNo := ToU16(old(seqNo) + num))
    {
      ghost var seq0 := seqNo;
      sent := [];
      var x := 0;
      while x != num
        invariant 0 <= x <= num
        invariant seqNo == ToU16(seq0 + x)
        invariant sent == Burst(seq0, x, order)
      {
        var temp := seqNo;
        ToU16Succ(seq0 + x);
        BurstSnoc(seq0, x, order);
        seqNo := ToU16(seqNo + 1);
        var id := ToU16(ECHO_ID + x);
        var cksum := InCksum(EchoHeader(id, temp, 0, order), order);
        sent := sent + [EchoHeader(id, temp, cksum, order)];
        x := x + 1;
      }
    }

    /** The body of the acceptance test in `mp_recv`: `last[]` moves on
        before the capacity check, the value is stored only if there is room. */
    method RecordReply(value: u16)
      requires Valid()
      modifies this`last0, this`last1, this`bufpos, buffer
      ensures Valid() && JitterOf() == Record(old(JitterOf()), value)
    {
      var delta := ToI16(value - last0);
      last0 := value;
      var v := delta - last1;
      last1 := delta;
      if bufpos < BUFFER_MAX {
        buffer[bufpos] := v;
        bufpos := bufpos + 1;
        assert buffer[..bufpos] == old(buffer[..bufpos]) + [v];
      }
    }

    /** `mp_recv`: the datagrams pending until `recvmsg` would block. */
    method Recv(replies: seq<Reply>)
      requires Valid()
      modifies this`last0, this`last1, this`bufpos, buffer
      ensures Valid()
      ensures State() == old(State()).(jitter := Drain(old(JitterOf()), replies, sendTo))
    {
      ghost var j0 := JitterOf();
      var i := 0;
      while i != |replies|
        invariant 0 <= i <= |replies| && Valid()
        invariant JitterOf() == Drain(j0, replies[..i], sendTo)
      {
        var r := replies[i];
        if r.icmpType == ICMP_ECHOREPLY && r.icmpId == ECHO_ID && r.from == sendTo {
          RecordReply(r.ipId);
        }
        DrainSnoc(j0, replies[..i], r, sendTo);
        assert replies[..i + 1] == replies[..i] + [r];
        i := i + 1;
      }
      assert replies[..i] == replies;
    }

    /** `mp_hp_f1`: the first high-pass stage. */
    method HpF1(x: i16) returns (r: i16)
      modifies this`lowPass1
      ensures lowPass1 == LowPass(old(lowPass1), x) && r == HighPass(lowPass1, x)
    {
      lowPass1 := lowPass1 + (x * 0x100 - CDiv(lowPass1, 0x100));
      r := SubtractSafe(x, ToI16(CDiv(lowPass1, 0x1_0000)));
    }

    /** `mp_hp_f2`: the second high-pass stage. */
    method HpF2(x: i16) returns (r: i16)
      modifies this`lowPass2
      ensures lowPass2 == LowPass(old(lowPass2), x) && r == HighPass(lowPass2, x)
    {
      lowPass2 := lowPass2 + (x * 0x100 - CDiv(lowPass2, 0x100));
      r := SubtractSafe(x, ToI16(CDiv(lowPass2, 0x1_0000)));
    }

    /** The resampling part of one output step of `mp_generate_audio`. */
    method ResampleStep(y: int) returns (y': int)
      requires Valid() && freq > 0 && 0 <= y <= bufpos
      modifies this`rem, this`lastSample
      ensures var t := Resample(old(SynthOf()), y, buffer[..bufpos], freq, amp);
        SynthOf() == old(SynthOf()).(rem := t.rem, lastSample := t.held) && y' == t.y
    {
      y' := y;
      rem := rem + freq;
      if rem >= SAMPLE_RATE {
        rem := rem - SAMPLE_RATE;
        while bufpos - y' > CDiv(freq, 50) + 2
          invariant y <= y' && (y' == y || bufpos - y' >= LeadTime(freq))
          decreases bufpos - y'
        {
          y' := y' + 1;
        }
        if y' < bufpos {
          lastSample := SubtractSafe(ToI16(buffer[y'] * amp), 0);
          y' := y' + 1;
        }
      }
    }

    /** The filtering part: `last_sample = mp_hp_f1(mp_hp_f2(last_sample))`. */
    method FilterStep()
      modifies this`lastSample, this`lowPass1, this`lowPass2
      ensures SynthOf() == Filter(old(SynthOf()), ToI16(old(lastSample)))
    {
      var o2 := HpF2(ToI16(lastSample));
      lastSample := HpF1(o2);
    }

    /** One pass of the 128-sample loop, up to the store into the block:
        resample, then filter the held sample. */
    method OutputStep(y: int, ghost out: seq<int>) returns (y': int)
      requires Valid() && freq > 0 && 0 <= y <= bufpos
      modifies this`rem, this`lastSample, this`lowPass1, this`lowPass2
      ensures Step(Gen(old(SynthOf()), y, out), buffer[..bufpos], freq, amp) == Gen(SynthOf(), y', out + [lastSample])
    {
      y' := ResampleStep(y);
      FilterStep();
    }

    /** The 128-sample loop of `mp_generate_audio`: the block it fills and
        where it leaves the cursor into the jitter buffer. */
    method Synthesize() returns (block: array<int>, y: int)
      requires Valid() && freq > 0
      modifies this`rem, this`lastSample, this`lowPass1, this`lowPass2
      ensures fresh(block)
      ensures var g := Steps(Gen(old(SynthOf()), 0, []), buffer[..bufpos], freq, amp, BLOCK_SAMPLES);
        SynthOf() == g.synth && y == g.y && block[..] == g.out
    {
      block := new int[BLOCK_SAMPLES];
      ghost var g0 := Gen(SynthOf(), 0, []);
      ghost var out: seq<int> := [];
      var x := 0;
      y := 0;
      while x != BLOCK_SAMPLES
        invariant 0 <= x <= BLOCK_SAMPLES && 0 <= y <= bufpos && |out| == x
        invariant forall k :: 0 <= k < x ==> block[k] == out[k]
        invariant Steps(g0, buffer[..bufpos], freq, amp, x) == Gen(SynthOf(), y, out)
      {
        ghost var q := buffer[..bufpos];
        assert Steps(g0, q, freq, amp, x + 1) == Step(Gen(SynthOf(), y, out), q, freq, amp);
        y := OutputStep(y, out);
        assert buffer[..bufpos] == q;
        out := out + [lastSample];
        ghost var s := SynthOf();
        block[x] := lastSample;
        assert buffer[..bufpos] == q && SynthOf() == s;
        x := x + 1;
      }
      assert block[..] == out;
    }

    /** The copy loop that ends `mp_generate_audio`: the unread values
        `buffer[y..bufpos)` move to the front; the slots after them keep
        what they held. */
    method Compact(y: int)
      requires Valid() && 0 <= y <= bufpos
      modifies this`bufpos, buffer
      ensures Valid() && bufpos == old(bufpos) - y
      ensures State() == old(State()).(jitter := old(JitterOf()).(queue := old(buffer[..bufpos])[y..]))
      ensures forall k :: bufpos <= k < buffer.Length ==> buffer[k] == old(buffer[k])
    {
      var x := 0;
      var z := y;
      while z != bufpos
        invariant Valid() && bufpos == old(bufpos)
        invariant 0 <= x <= z <= bufpos && z - x == y
        invariant forall k :: 0 <= k < x ==> buffer[k] == old(buffer[y + k])
        invariant forall k :: x <= k < buffer.Length ==> buffer[k] == old(buffer[k])
      {
        buffer[x] := buffer[z];
        x, z := x + 1, z + 1;
      }
      bufpos := x;
      assert buffer[..bufpos] == old(buffer[..bufpos])[y..];
    }

    /** `mp_generate_audio`: nothing when the device reports a block already
        queued; otherwise one block, handed to `write` (a failed write posts
        a full reconfiguration), and the consumed jitter values dropped. */
    method GenerateAudio(odelay: Option<int>, writeOk: bool) returns (played: Option<seq<int>>)
      requires Valid() && freq > 0
      modifies this`rem, this`lastSample, this`lowPass1, this`lowPass2, this`configure, this`bufpos, buffer
      ensures Valid() && (State(), played) == PlayAudio(old(State()), odelay, writeOk)
    {
      ghost var w := State();
      if odelay.Some? && odelay.value >= BLOCK_BYTES {
        return None;
      }
      played := PlayBlock(writeOk);
    }

    /** The part of `mp_generate_audio` after the output-delay check. */
    method PlayBlock(writeOk: bool) returns (played: Option<seq<int>>)
      requires Valid() && freq > 0
      modifies this`rem, this`lastSample, this`lowPass1, this`lowPass2, this`configure, this`bufpos, buffer
      ensures Valid() && (State(), played) == PlayAudio(old(State()), None, writeOk)
    {
      ghost var w := State();
      var block, y := Synthesize();
      ghost var g := Steps(Gen(w.synth, 0, []), w.jitter.queue, freq, amp, BLOCK_SAMPLES);
      ghost var w1 := State();
      assert w1 == w.(synth := g.synth);
      Retire(y, writeOk);
      played := Some(block[..]);
      assert State() == w1.(configure := if writeOk then w.configure else FULL_REQUEST,
                            jitter := w.jitter.(queue := w.jitter.queue[g.y..]));
    }

    /** What follows the `write` of a block: a failed write posts a full
        reconfiguration, and the jitter values read are dropped. */
    method Retire(y: int, writeOk: bool)
      requires Valid() && 0 <= y <= bufpos
      modifies this`configure, this`bufpos, buffer
      ensures Valid()
      ensures State() == old(State()).(configure := if writeOk then old(configure) else FULL_REQUEST,
                                       jitter := old(JitterOf()).(queue := old(buffer[..bufpos])[y..]))
    {
      if !writeOk {
        configure := FULL_REQUEST;
      }
      ghost var w := State();
      Compact(y);
      assert State() == w.(jitter := w.jitter.(queue := w.jitter.queue[y..]));
    }

    /** The timer branch of the dispatch loop: send the burst, advance the
        burst counter modulo 3, generate audio. */
    method OnTimer(odelay: Option<int>, writeOk: bool) returns (sent: seq<seq<byte>>, played: Option<seq<int>>)
      requires Valid() && freq > 0 && 0 <= sendState
      modifies this`seqNo, this`sendState, this`rem, this`lastSample, this`lowPass1, this`lowPass2
      modifies this`configure, this`bufpos, buffer
      ensures Valid() && TimerResult(State(), sent, played) == Timer(old(State()), odelay, writeOk, order)
    {
      sent := Ping();
      played := GenerateAudio(odelay, writeOk);
    }

    /** `mp_send` with the burst size the counters select, then the burst
        counter advanced modulo 3. */
    method Ping() returns (sent: seq<seq<byte>>)
      requires Valid() && 0 <= sendState
      modifies this`seqNo, this`sendState
      ensures Valid() && (State(), sent) == Process.Ping(old(State()), order)
    {
      ghost var w := State();
      sent := Send(if doit then sendState else 1);
      sendState := sendState + 1;
      sendState := sendState % 3;
      assert State() == w.(seqNo := ToU16(w.seqNo + BurstSize(w.doit, w.sendState)), sendState := (w.sendState + 1) % 3);
    }

    /** The `for (x = 0; x < n; x++)` loop over the events of one wake-up. */
    method DispatchEvents(events: seq<Event>) returns (outputs: seq<Output>)
      requires Valid() && freq > 0 && 0 <= sendState
      modifies this`seqNo, this`sendState, this`rem, this`lastSample, this`lowPass1, this`lowPass2
      modifies this`configure, this`bufpos, this`last0, this`last1, buffer
      ensures Valid() && (State(), outputs) == Process.Dispatch(old(State()), events, order)
    {
      ghost var w0 := State();
      outputs := [];
      var x := 0;
      while x < |events|
        invariant 0 <= x <= |events| && Valid()
        invariant (State(), outputs) == Process.Dispatch(w0, events[..x], order)
        decreases |events| - x
      {
        assert events[..x + 1][..x] == events[..x];
        ghost var w := State();
        ghost var outs := outputs;
        ghost var h := HandleEvent(w, events[x], order);
        assert Process.Dispatch(w0, events[..x + 1], order) == (h.0, outs + h.1);
        match events[x] {
          case Readable(replies) =>
            Recv(replies);
            assert outs + h.1 == outs;
          case Expired(odelay, writeOk) =>
            var sent, played := OnTimer(odelay, writeOk);
            outputs := outputs + [Output(sent, played)];
        }
        assert (State(), outputs) == (h.0, outs + h.1);
        x := x + 1;
      }
      assert events[..x] == events;
    }

    /** The `if (mw->configure)` branch of `mp_process`. */
    method Service(os: Os) returns (report: Option<Report>)
      requires Valid() && freq > 0
      modifies this`sendTo, this`sendSocket, this`recvSocket, this`audioFd
      modifies this`reactor, this`configure, this`bufpos, this`error
      ensures Valid() && (State(), report) == Process.Service(old(State()), os)
    {
      if configure == NO_REQUEST {
        return None;
      }
      if configure == FULL_REQUEST {
        Reopen(os.reopened);
      }
      report := Settle(os);
    }

    /** A full request: close and reopen both sockets and the sound device. */
    method Reopen(h: Reopened)
      requires Valid()
      modifies this`sendTo, this`sendSocket, this`recvSocket, this`audioFd
      ensures Valid() && State() == Process.Reopen(old(State()), h)
    {
      ghost var j := JitterOf();
      sendTo, sendSocket, recvSocket, audioFd := h.sendTo, h.sendSocket, h.recvSocket, h.audioFd;
      assert JitterOf() == j;
    }

    /** Rebuild the reactor, clear the request and the jitter buffer, report. */
    method Settle(os: Os) returns (report: Option<Report>)
      requires Valid() && freq > 0
      modifies this`reactor, this`configure, this`bufpos, this`error
      ensures Valid() && (State(), report) == Process.Settle(old(State()), os)
    {
      reactor, configure, bufpos := if sendSocket < 0 || recvSocket < 0 || audioFd < 0 then -1 else os.kq, NO_REQUEST, 0;
      if reactor < 0 {
        error := os.errno;
        report := Some(ConfigFailed(error));
      } else {
        report := Some(ConfigOk(TimerPeriod(freq)));
      }
    }

    /** `handle_config_apply`. */
    method HandleConfigApply(dspText: string, gwText: string)
      requires Valid()
      modifies this`dsp, this`gw, this`configure
      ensures Valid() && State() == ConfigApply(old(State()), dspText, gwText)
    {
      ghost var j := JitterOf();
      dsp, gw, configure := CString(dspText, NAME_MAX), CString(gwText, NAME_MAX), FULL_REQUEST;
      assert JitterOf() == j;
    }

    /** `handle_freq_apply`. */
    method HandleFreqApply(value: int)
      requires Valid()
      modifies this`freq, this`configure
      ensures Valid() && State() == FreqApply(old(State()), value)
    {
      ghost var j := JitterOf();
      freq := value;
      assert JitterOf() == j;
      if audioFd > -1 && configure == NO_REQUEST {
        configure := TIMER_REQUEST;
      }
    }

    /** `handle_amp_apply`. */
    method HandleAmpApply(value: int)
      requires Valid()
      modifies this`amp
      ensures Valid() && State() == AmpApply(old(State()), value)
    {
      amp := value;
    }

    /** `handle_morse_on`. */
    method HandleMorseOn()
      requires Valid()
      modifies this`doit
      ensures Valid() && State() == MorseOn(old(State()))
    {
      doit := true;
    }

    /** `handle_morse_off`. */
    method HandleMorseOff()
      requires Valid()
      modifies this`doit
      ensures Valid() && State() == MorseOff(old(State()))
    {
      doit := false;
    }
  }
}
