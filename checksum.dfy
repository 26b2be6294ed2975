/**
 * The internet checksum of `mp_in_cksum`: the 16-bit one's-complement sum of
 * the buffer read as host-order 16-bit words (a trailing odd byte padded with
 * a zero byte), folded twice and complemented, as in section 4.1 of RFC 1071.
 */
module Checksum {
  import opened FixedWidth

  /** Largest IP datagram (IP_MAXPACKET): the largest buffer the worker owns. */
  const IP_MAXPACKET: nat := 0xFFFF

  /** How two consecutive bytes in memory read as one `uint16_t` on the host. */
  datatype ByteOrder = LittleEndian | BigEndian

  function LoadWord(b0: byte, b1: byte, order: ByteOrder): u16
  {
    match order
    case LittleEndian => b0 + 0x100 * b1
    case BigEndian => 0x100 * b0 + b1
  }

  /** The two bytes a host-order store of w writes. */
  function StoreWord(w: u16, order: ByteOrder): (b: seq<byte>)
    ensures |b| == 2 && LoadWord(b[0], b[1], order) == w
  {
    match order
    case LittleEndian => [w % 0x100, w / 0x100]
    case BigEndian => [w / 0x100, w % 0x100]
  }

  /** Sum of the first n whole 16-bit words of b. */
  function WordSum(b: seq<byte>, n: nat, order: ByteOrder): (sum: int)
    requires 2 * n <= |b|
    ensures 0 <= sum <= n * 0xFFFF
  {
    if n == 0 then 0
    else WordSum(b, n - 1, order) + LoadWord(b[2 * n - 2], b[2 * n - 1], order)
  }

  /** The 32-bit sum the source accumulates before folding. */
  function Sum(b: seq<byte>, order: ByteOrder): int
  {
    WordSum(b, |b| / 2, order) + (if |b| % 2 == 1 then LoadWord(b[|b| - 1], 0, order) else 0)
  }

  /** Two end-around-carry folds, then the complement truncated to 16 bits. */
  function Finish(sum: int): u16
    requires 0 <= sum
  {
    var s1 := sum / 0x1_0000 + sum % 0x1_0000;
    var s2 := s1 + s1 / 0x1_0000;
    0xFFFF - s2 % 0x1_0000
  }

  function Cksum(b: seq<byte>, order: ByteOrder): u16
  {
    Finish(Sum(b, order))
  }

  /** The sum never overflows the source's 32-bit `int` for buffers the worker can hold. */
  lemma SumFitsInt32(b: seq<byte>, order: ByteOrder)
    requires |b| <= IP_MAXPACKET
    ensures 0 <= Sum(b, order) <= INT32_MAX
  {
    assert WordSum(b, |b| / 2, order) <= (|b| / 2) * 0xFFFF <= 0x7FFF * 0xFFFF;
  }

  /** Where the word loop stops: after the whole words, with at most one byte left. */
  lemma LoopExit(n: nat, words: nat)
    requires 0 <= n - 2 * words <= 1
    ensures words == n / 2 && (n % 2 == 1 <==> n - 2 * words == 1)
  {
  }

  /** The loop of `mp_in_cksum`: w is the byte offset of the next word. */
  method InCksum(b: seq<byte>, order: ByteOrder) returns (answer: u16)
    requires |b| <= IP_MAXPACKET
    ensures answer == Cksum(b, order)
  {
    var nleft := |b|;
    var sum := 0;
    var w := 0;
    ghost var words := 0;
    while nleft > 1
      invariant w == 2 * words && nleft == |b| - w && 0 <= nleft
      invariant sum == WordSum(b, words, order)
    {
      sum := sum + LoadWord(b[w], b[w + 1], order);
      w := w + 2;
      nleft := nleft - 2;
      words := words + 1;
    }
    LoopExit(|b|, words);
    if nleft == 1 {
      sum := sum + LoadWord(b[w], 0, order);
    }
    ghost var total := sum;
    assert total == Sum(b, order);
    SumFitsInt32(b, order);
    sum := sum / 0x1_0000 + sum % 0x1_0000;
    ghost var s1 := sum;
    sum := sum + sum / 0x1_0000;
    answer := 0xFFFF - sum % 0x1_0000;
    FoldsAreFinish(total, s1, sum);
  }

  lemma FoldsAreFinish(sum: int, s1: int, s2: int)
    requires 0 <= sum && s1 == sum / 0x1_0000 + sum % 0x1_0000 && s2 == s1 + s1 / 0x1_0000
    ensures Finish(sum) == 0xFFFF - s2 % 0x1_0000
  {
  }

  /** The one's-complement sum that Finish complements: 0 only for a zero sum,
      otherwise in [1, 0xFFFF] and congruent to the sum modulo 0xFFFF. */
  function OnesSum(sum: int): (r: int)
    requires 0 <= sum <= INT32_MAX
    ensures sum == 0 ==> r == 0
    ensures sum > 0 ==> 1 <= r <= 0xFFFF
    ensures (sum - r) % 0xFFFF == 0
    ensures Finish(sum) == 0xFFFF - r
  {
    var h := sum / 0x1_0000;
    var l := sum % 0x1_0000;
    assert sum == h * 0x1_0000 + l;
    assert sum - (h + l) == h * 0xFFFF;
    assert h <= 0x7FFF;
    var s1 := h + l;
    if s1 < 0x1_0000 then
      s1
    else
      assert s1 / 0x1_0000 == 1;
      assert (s1 + 1) % 0x1_0000 == s1 + 1 - 0x1_0000;
      s1 - 0xFFFF
  }

  /** The checksum is the one's complement of the sum: adding it to the sum
      gives 0 modulo 0xFFFF. */
  lemma FinishComplements(sum: int)
    requires 0 <= sum <= INT32_MAX
    ensures (sum + Finish(sum)) % 0xFFFF == 0
    ensures sum > 0 ==> Finish(sum) < 0xFFFF
  {
    var r := OnesSum(sum);
    assert sum + Finish(sum) == (sum - r) + 0xFFFF;
  }

  /** Summing again with the checksum added yields the complement 0, the
      receiver's verification step of RFC 1071. */
  lemma FinishVerifies(sum: int)
    requires 0 <= sum <= INT32_MAX - 0xFFFF
    ensures Finish(sum + Finish(sum)) == 0
  {
    var r0 := OnesSum(sum);
    var q := (sum - r0) / 0xFFFF;
    assert sum - r0 == q * 0xFFFF;
    var s := sum + Finish(sum);
    assert s == (q + 1) * 0xFFFF;
    var r := OnesSum(s);
    var m := (s - r) / 0xFFFF;
    assert s - r == m * 0xFFFF;
    var k := q + 1 - m;
    assert r == k * 0xFFFF;
    assert k == 1;
  }
}
