/**
 * The ICMP Echo Request headers built by `mp_send` (RFC 792, "Echo or Echo
 * Reply Message"): 8 bytes laid out as `struct icmp` has them — type, code,
 * checksum (stored in host order), identifier and sequence number (both in
 * network order, via `htons`).
 */
module Icmp {
  import opened FixedWidth
  import opened Checksum

  const ICMP_ECHOREPLY: byte := 0
  const ICMP_ECHO: byte := 8
  const ICMP_MINLEN: nat := 8
  /** Identifier of the first probe of a burst; the x-th probe carries ECHO_ID + x. */
  const ECHO_ID: u16 := 0xDEAD

  /** The two bytes of `htons(v)` in memory: most significant first. */
  function Htons(v: u16): (b: seq<byte>)
    ensures |b| == 2
  {
    [v / 0x100, v % 0x100]
  }

  function Ntohs(b0: byte, b1: byte): u16
  {
    0x100 * b0 + b1
  }

  /** A zeroed `struct icmp` with type Echo, the given identifier, sequence
      number and checksum field filled in. */
  function EchoHeader(id: u16, sq: u16, cksum: u16, order: ByteOrder): (h: seq<byte>)
    ensures |h| == ICMP_MINLEN
  {
    [ICMP_ECHO, 0] + StoreWord(cksum, order) + Htons(id) + Htons(sq)
  }

  function TypeOf(h: seq<byte>): byte requires |h| == ICMP_MINLEN { h[0] }
  function CodeOf(h: seq<byte>): byte requires |h| == ICMP_MINLEN { h[1] }
  function IdOf(h: seq<byte>): u16 requires |h| == ICMP_MINLEN { Ntohs(h[4], h[5]) }
  function SeqOf(h: seq<byte>): u16 requires |h| == ICMP_MINLEN { Ntohs(h[6], h[7]) }

  /** The header `mp_send` hands to `send`: the checksum is computed over the
      header with a zero checksum field and then stored into that field. */
  function EchoRequest(id: u16, sq: u16, order: ByteOrder): (h: seq<byte>)
    ensures |h| == ICMP_MINLEN
  {
    EchoHeader(id, sq, Cksum(EchoHeader(id, sq, 0, order), order), order)
  }

  /** Storing a value into the checksum field adds exactly that value to the sum. */
  lemma SumOfHeader(id: u16, sq: u16, c: u16, order: ByteOrder)
    ensures Sum(EchoHeader(id, sq, c, order), order) == Sum(EchoHeader(id, sq, 0, order), order) + c
    ensures Sum(EchoHeader(id, sq, 0, order), order) <= 4 * 0xFFFF
  {
    var h, z := EchoHeader(id, sq, c, order), EchoHeader(id, sq, 0, order);
    assert WordSum(h, 1, order) == WordSum(z, 1, order);
    assert WordSum(h, 2, order) == WordSum(z, 2, order) + c;
    assert WordSum(h, 3, order) == WordSum(z, 3, order) + c;
    assert WordSum(h, 4, order) == WordSum(z, 4, order) + c;
  }

  /** Every header `mp_send` builds is a well-formed Echo Request whose fields
      read back as written, and re-computing the checksum over it (checksum
      field included) yields 0. */
  lemma EchoRequestWellFormed(id: u16, sq: u16, order: ByteOrder)
    ensures var h := EchoRequest(id, sq, order);
      && TypeOf(h) == ICMP_ECHO && CodeOf(h) == 0
      && IdOf(h) == id && SeqOf(h) == sq
      && Cksum(h, order) == 0
  {
    var c := Cksum(EchoHeader(id, sq, 0, order), order);
    SumOfHeader(id, sq, c, order);
    FinishVerifies(Sum(EchoHeader(id, sq, 0, order), order));
  }

  /** A known answer: the first probe with sequence number 0 has word sum
      0xADE6 on a little-endian host and checksum 0x5219; on either host it
      goes on the wire as the same eight bytes. */
  lemma FirstProbeChecksum()
    ensures Cksum(EchoHeader(ECHO_ID, 0, 0, LittleEndian), LittleEndian) == 0x5219
    ensures EchoRequest(ECHO_ID, 0, LittleEndian) == [8, 0, 0x19, 0x52, 0xDE, 0xAD, 0, 0]
    ensures EchoRequest(ECHO_ID, 0, BigEndian) == [8, 0, 0x19, 0x52, 0xDE, 0xAD, 0, 0]
  {
    var z: seq<byte> := [8, 0, 0, 0, 0xDE, 0xAD, 0, 0];
    assert EchoHeader(ECHO_ID, 0, 0, LittleEndian) == z;
    assert EchoHeader(ECHO_ID, 0, 0, BigEndian) == z;
    assert WordSum(z, 2, LittleEndian) == 8;
    assert WordSum(z, 4, LittleEndian) == 8 + 0xADDE;
    assert WordSum(z, 2, BigEndian) == 0x800;
    assert WordSum(z, 4, BigEndian) == 0x800 + 0xDEAD;
    assert Cksum(z, BigEndian) == 0x1952;
  }

  /** The `num` headers of one call of `mp_send` when the sequence counter
      starts at seq0: probe x has identifier 0xdead + x and sequence number
      seq0 + x, both truncated to 16 bits. */
  function Burst(seq0: u16, num: nat, order: ByteOrder): (p: seq<seq<byte>>)
    ensures |p| == num && forall x :: 0 <= x < num ==> |p[x]| == ICMP_MINLEN
  {
    var p := seq(num, x => EchoRequest(ToU16(ECHO_ID + x), ToU16(seq0 + x), order));
    assert forall x :: 0 <= x < num ==> p[x] == EchoRequest(ToU16(ECHO_ID + x), ToU16(seq0 + x), order);
    p
  }

  /** A burst one longer ends with the next probe: what the send loop of
      `mp_send` appends in each pass. */
  lemma BurstSnoc(seq0: u16, num: nat, order: ByteOrder)
    ensures Burst(seq0, num + 1, order)
      == Burst(seq0, num, order) + [EchoRequest(ToU16(ECHO_ID + num), ToU16(seq0 + num), order)]
  {
    var a, b := Burst(seq0, num + 1, order), Burst(seq0, num, order) + [EchoRequest(ToU16(ECHO_ID + num), ToU16(seq0 + num), order)];
    assert forall x :: 0 <= x < num + 1 ==> a[x] == b[x];
  }

  /** Every probe of a burst is a well-formed Echo Request: probe x has type
      8, code 0, identifier 0xdead + x and sequence number seq0 + x (both
      truncated to 16 bits), and it checksums to 0. */
  lemma BurstProbes(seq0: u16, num: nat, order: ByteOrder, x: nat)
    requires x < num
    ensures var p := Burst(seq0, num, order)[x];
      && TypeOf(p) == ICMP_ECHO && CodeOf(p) == 0
      && IdOf(p) == ToU16(ECHO_ID + x) && SeqOf(p) == ToU16(seq0 + x)
      && Cksum(p, order) == 0
  {
    assert Burst(seq0, num, order)[x] == EchoRequest(ToU16(ECHO_ID + x), ToU16(seq0 + x), order);
    EchoRequestWellFormed(ToU16(ECHO_ID + x), ToU16(seq0 + x), order);
  }

  /** Consecutive probes of a burst carry consecutive sequence numbers modulo 2^16. */
  lemma BurstSequenceConsecutive(seq0: u16, num: nat, order: ByteOrder, x: nat)
    requires x + 1 < num
    ensures var p := Burst(seq0, num, order);
      SeqOf(p[x + 1]) == ToU16(SeqOf(p[x]) + 1)
  {
    var p := Burst(seq0, num, order);
    EchoRequestWellFormed(ToU16(ECHO_ID + x), ToU16(seq0 + x), order);
    EchoRequestWellFormed(ToU16(ECHO_ID + x + 1), ToU16(seq0 + x + 1), order);
    assert SeqOf(p[x]) == ToU16(seq0 + x);
    assert SeqOf(p[x + 1]) == ToU16(seq0 + x + 1);
    ToU16Succ(seq0 + x);
  }
}
