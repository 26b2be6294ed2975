/**
 * The receive side of `mp_recv`: which Echo Replies are recorded, and the
 * jitter value each recorded reply appends to the bounded sample buffer.
 * The IP identification field of a reply stands in for a timestamp; its
 * first difference is wrapped to 16 bits and the appended value is the
 * (unclamped) difference of two consecutive first differences.
 */
module Receiver {
  import opened FixedWidth
  import opened Icmp

  /** Capacity of the sample buffer (MP_BUFFER_MS_MAX). */
  const BUFFER_MAX: nat := 256

  /** The raw bytes of a `struct sockaddr_in`, compared with `bcmp`. */
  type SockAddr = int

  /** The fields of one received datagram that the accept test and the
      difference arithmetic read: ICMP type and identifier, the IP
      identification field (all decoded from network order) and the sender. */
  datatype Reply = Reply(icmpType: byte, icmpId: u16, ipId: u16, from: SockAddr)

  /** `last[0]` (previous IP identification), `last[1]` (previous first
      difference) and the filled part `buffer[0..bufpos)` of the sample buffer. */
  datatype Jitter = Jitter(last0: int, last1: int, queue: seq<int>)

  /** A reply is recorded only if it is an Echo Reply to the first probe of a
      burst and comes from the configured target. */
  predicate Accepts(r: Reply, target: SockAddr)
  {
    r.icmpType == ICMP_ECHOREPLY && r.icmpId == ECHO_ID && r.from == target
  }

  /** One recorded reply: `last[]` is updated before the capacity check, so it
      changes even when the value is dropped. */
  function Record(j: Jitter, ipId: u16): Jitter
  {
    var delta := ToI16(ipId - j.last0);
    Jitter(ipId, delta, if |j.queue| < BUFFER_MAX then j.queue + [delta - j.last1] else j.queue)
  }

  /** The whole receive loop over the datagrams that are pending before
      `recvmsg` would block. */
  function Drain(j: Jitter, replies: seq<Reply>, target: SockAddr): Jitter
    decreases |replies|
  {
    if replies == [] then j
    else
      var j' := Drain(j, replies[..|replies| - 1], target);
      var r := replies[|replies| - 1];
      if Accepts(r, target) then Record(j', r.ipId) else j'
  }

  /** Every sample is within the range of a difference of two `int16_t` values. */
  predicate Samples(q: seq<int>)
  {
    forall k :: 0 <= k < |q| ==> -0xFFFF <= q[k] <= 0xFFFF
  }

  /** What holds of the receiver state at all times: the IP identification
      is 16-bit, the first difference is an `int16_t`, the buffer is within
      capacity and each sample is a difference of two `int16_t` values. */
  predicate Inv(j: Jitter)
  {
    && 0 <= j.last0 < 0x1_0000
    && -0x8000 <= j.last1 < 0x8000
    && |j.queue| <= BUFFER_MAX
    && Samples(j.queue)
  }

  lemma {:induction false} DrainPreservesInv(j: Jitter, replies: seq<Reply>, target: SockAddr)
    requires Inv(j)
    ensures Inv(Drain(j, replies, target))
    decreases |replies|
  {
    if replies != [] {
      DrainPreservesInv(j, replies[..|replies| - 1], target);
    }
  }

  // An independent description of the same loop: the identification values
  // of the accepted replies, their wrapped first differences and their second
  // differences, each as a closed-form sequence.

  function AcceptedIds(replies: seq<Reply>, target: SockAddr): seq<u16>
    decreases |replies|
  {
    if replies == [] then []
    else
      var r := replies[|replies| - 1];
      AcceptedIds(replies[..|replies| - 1], target) + (if Accepts(r, target) then [r.ipId] else [])
  }

  function Deltas(last0: int, ids: seq<u16>): (d: seq<int>)
    ensures |d| == |ids|
  {
    seq(|ids|, i requires 0 <= i < |ids| => ToI16(ids[i] - (if i == 0 then last0 else ids[i - 1])))
  }

  function SecondDiffs(last0: int, last1: int, ids: seq<u16>): (s: seq<int>)
    ensures |s| == |ids|
  {
    var d := Deltas(last0, ids);
    seq(|ids|, i requires 0 <= i < |ids| => d[i] - (if i == 0 then last1 else d[i - 1]))
  }

  function Min(a: int, b: int): int { if a <= b then a else b }

  lemma DeltasSnoc(last0: int, ids: seq<u16>, x: u16)
    ensures Deltas(last0, ids + [x])
         == Deltas(last0, ids) + [ToI16(x - (if ids == [] then last0 else ids[|ids| - 1]))]
  {
    var a, b := Deltas(last0, ids + [x]), Deltas(last0, ids) + [ToI16(x - (if ids == [] then last0 else ids[|ids| - 1]))];
    assert |a| == |b|;
    forall i | 0 <= i < |a| ensures a[i] == b[i] {
      if i < |ids| {
        assert (ids + [x])[i] == ids[i];
        if i > 0 { assert (ids + [x])[i - 1] == ids[i - 1]; }
      }
    }
  }

  lemma SecondDiffsSnoc(last0: int, last1: int, ids: seq<u16>, x: u16)
    ensures var d := Deltas(last0, ids + [x]);
      SecondDiffs(last0, last1, ids + [x])
      == SecondDiffs(last0, last1, ids) + [d[|ids|] - (if ids == [] then last1 else d[|ids| - 1])]
  {
    DeltasSnoc(last0, ids, x);
    var d := Deltas(last0, ids + [x]);
    var a := SecondDiffs(last0, last1, ids + [x]);
    var b := SecondDiffs(last0, last1, ids) + [d[|ids|] - (if ids == [] then last1 else d[|ids| - 1])];
    assert |a| == |b|;
    forall i | 0 <= i < |a| ensures a[i] == b[i] {
      if i < |ids| {
        assert d[i] == Deltas(last0, ids)[i];
        if i > 0 { assert d[i - 1] == Deltas(last0, ids)[i - 1]; }
      }
    }
  }

  /** The value `last[0]` holds after the accepted values ids. */
  function LastId(last0: int, ids: seq<u16>): int
  {
    if ids == [] then last0 else ids[|ids| - 1]
  }

  /** The value `last[1]` holds after the accepted values ids. */
  function LastDelta(last0: int, last1: int, ids: seq<u16>): int
  {
    if ids == [] then last1 else Deltas(last0, ids)[|ids| - 1]
  }

  /** Extending the accepted values by x extends the second differences by
      the value `Record` appends, computed from the last value and difference. */
  lemma DiffStep(last0: int, last1: int, ids: seq<u16>, x: u16)
    ensures LastId(last0, ids + [x]) == x
    ensures LastDelta(last0, last1, ids + [x]) == ToI16(x - LastId(last0, ids))
    ensures SecondDiffs(last0, last1, ids + [x])
         == SecondDiffs(last0, last1, ids) + [ToI16(x - LastId(last0, ids)) - LastDelta(last0, last1, ids)]
  {
    DeltasSnoc(last0, ids, x);
    SecondDiffsSnoc(last0, last1, ids, x);
    var d := Deltas(last0, ids + [x]);
    assert ids != [] ==> d[|ids| - 1] == Deltas(last0, ids)[|ids| - 1];
  }

  /** Appending to a buffer that holds the first entries of a stream, up to
      capacity, keeps it holding the first entries of the longer stream. */
  lemma AppendStep(q: seq<int>, kept: seq<int>, stream: seq<int>, v: int)
    requires q == (kept + stream)[..Min(|kept| + |stream|, BUFFER_MAX)]
    ensures (if |q| < BUFFER_MAX then q + [v] else q)
         == (kept + (stream + [v]))[..Min(|kept| + |stream| + 1, BUFFER_MAX)]
  {
    assert kept + (stream + [v]) == (kept + stream) + [v];
    if |q| < BUFFER_MAX {
      assert q == kept + stream;
    }
  }

  /** The receive loop appends the second differences of the accepted
      identification values, in order, keeping only as many as fit: the
      samples already buffered are retained and the newest are dropped once
      the buffer is full. `last[]` ends at the last accepted value and its
      first difference. */
  predicate DrainDescribed(j: Jitter, replies: seq<Reply>, target: SockAddr)
  {
    var ids := AcceptedIds(replies, target);
    var r := Drain(j, replies, target);
    && r.queue == (j.queue + SecondDiffs(j.last0, j.last1, ids))[..Min(|j.queue| + |ids|, BUFFER_MAX)]
    && r.last0 == LastId(j.last0, ids)
    && r.last1 == LastDelta(j.last0, j.last1, ids)
  }

  lemma DrainSnoc(j: Jitter, rs: seq<Reply>, r: Reply, target: SockAddr)
    ensures Drain(j, rs + [r], target)
         == if Accepts(r, target) then Record(Drain(j, rs, target), r.ipId) else Drain(j, rs, target)
    ensures AcceptedIds(rs + [r], target)
         == AcceptedIds(rs, target) + (if Accepts(r, target) then [r.ipId] else [])
  {
    assert (rs + [r])[..|rs|] == rs;
  }

  /** One recorded reply extends the description by one accepted value. */
  lemma RecordDescribed(j: Jitter, j0: Jitter, ids0: seq<u16>, x: u16)
    requires j0.queue == (j.queue + SecondDiffs(j.last0, j.last1, ids0))[..Min(|j.queue| + |ids0|, BUFFER_MAX)]
    requires j0.last0 == LastId(j.last0, ids0) && j0.last1 == LastDelta(j.last0, j.last1, ids0)
    ensures var ids, j1 := ids0 + [x], Record(j0, x);
      && j1.queue == (j.queue + SecondDiffs(j.last0, j.last1, ids))[..Min(|j.queue| + |ids|, BUFFER_MAX)]
      && j1.last0 == LastId(j.last0, ids)
      && j1.last1 == LastDelta(j.last0, j.last1, ids)
  {
    DiffStep(j.last0, j.last1, ids0, x);
    RecordStep(j0, x, j.queue, SecondDiffs(j.last0, j.last1, ids0));
  }

  /** `Record` on a state whose buffer holds a prefix of a stream of values. */
  lemma RecordStep(j0: Jitter, x: u16, kept: seq<int>, stream: seq<int>)
    requires j0.queue == (kept + stream)[..Min(|kept| + |stream|, BUFFER_MAX)]
    ensures var delta := ToI16(x - j0.last0);
      Record(j0, x) == Jitter(x, delta, (kept + (stream + [delta - j0.last1]))[..Min(|kept| + |stream| + 1, BUFFER_MAX)])
  {
    AppendStep(j0.queue, kept, stream, ToI16(x - j0.last0) - j0.last1);
  }

  lemma DrainStepAccepted(j: Jitter, rs: seq<Reply>, r: Reply, target: SockAddr)
    requires Accepts(r, target)
    requires DrainDescribed(j, rs, target)
    ensures DrainDescribed(j, rs + [r], target)
  {
    DrainSnoc(j, rs, r, target);
    RecordDescribed(j, Drain(j, rs, target), AcceptedIds(rs, target), r.ipId);
  }

  lemma DrainStepRejected(j: Jitter, rs: seq<Reply>, r: Reply, target: SockAddr)
    requires !Accepts(r, target)
    requires DrainDescribed(j, rs, target)
    ensures DrainDescribed(j, rs + [r], target)
  {
    DrainSnoc(j, rs, r, target);
    assert AcceptedIds(rs + [r], target) == AcceptedIds(rs, target);
  }

  lemma DrainDescribedEmpty(j: Jitter, target: SockAddr)
    requires |j.queue| <= BUFFER_MAX
    ensures DrainDescribed(j, [], target)
  {
    assert SecondDiffs(j.last0, j.last1, []) == [];
    assert (j.queue + [])[..|j.queue|] == j.queue;
  }

  lemma {:induction false} DrainIsSecondDifference(j: Jitter, replies: seq<Reply>, target: SockAddr)
    requires |j.queue| <= BUFFER_MAX
    ensures DrainDescribed(j, replies, target)
    decreases |replies|
  {
    if replies == [] {
      DrainDescribedEmpty(j, target);
    } else {
      var rs, r := replies[..|replies| - 1], replies[|replies| - 1];
      DrainIsSecondDifference(j, rs, target);
      if Accepts(r, target) {
        DrainStepAccepted(j, rs, r, target);
      } else {
        DrainStepRejected(j, rs, r, target);
      }
      assert replies == rs + [r];
    }
  }

  /** Samples already in the buffer are never disturbed by receiving. */
  lemma DrainRetainsBuffered(j: Jitter, replies: seq<Reply>, target: SockAddr)
    requires |j.queue| <= BUFFER_MAX
    ensures j.queue <= Drain(j, replies, target).queue
    ensures |j.queue| == BUFFER_MAX ==> Drain(j, replies, target).queue == j.queue
  {
    DrainIsSecondDifference(j, replies, target);
  }

  /** The first recorded replies already append: from the all-zero start,
      identification values 100, 105, 111, 118 append 100, -95, 1 and 1. */
  lemma FirstRepliesAppend()
    ensures Record(Record(Record(Record(Jitter(0, 0, []), 100), 105), 111), 118)
         == Jitter(118, 7, [100, -95, 1, 1])
  {
    var j1 := Record(Jitter(0, 0, []), 100);
    assert j1 == Jitter(100, 100, [100]);
    var j2 := Record(j1, 105);
    assert j2 == Jitter(105, 5, [100, -95]);
    var j3 := Record(j2, 111);
    assert j3 == Jitter(111, 6, [100, -95, 1]);
  }
}
