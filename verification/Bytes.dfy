/** Octets and the network-order integers that travel on the sockets (htons/htonl and back). */
module Bytes {

  type byte = x: int | 0 <= x < 256

  const TWO_16: int := 0x1_0000
  const TWO_32: int := 0x1_0000_0000

  /** What the poll server and the children ask recv for: sizeof their buffer pointer. */
  const CHUNK: nat := 8

  type uint16 = x: int | 0 <= x < TWO_16
  type uint32 = x: int | 0 <= x < TWO_32

  function Be16(n: uint16): (bs: seq<byte>)
    ensures |bs| == 2
  {
    [n / 0x100, n % 0x100]
  }

  function FromBe16(bs: seq<byte>): uint16
    requires |bs| == 2
  {
    bs[0] as int * 0x100 + bs[1]
  }

  function Be32(n: uint32): (bs: seq<byte>)
    ensures |bs| == 4
  {
    [n / 0x100_0000, n / 0x1_0000 % 0x100, n / 0x100 % 0x100, n % 0x100]
  }

  function FromBe32(bs: seq<byte>): uint32
    requires |bs| == 4
  {
    ((bs[0] as int * 0x100 + bs[1]) * 0x100 + bs[2]) * 0x100 + bs[3]
  }

  /** Two octets that spell n, the high one first; four likewise. */
  predicate Spell16(bs: seq<byte>, n: int) {
    |bs| == 2 && bs[0] as int * 256 + bs[1] == n
  }

  predicate Spell32(bs: seq<byte>, n: int) {
    |bs| == 4 && bs[0] as int * 0x100_0000 + bs[1] as int * 0x1_0000 + bs[2] as int * 0x100 + bs[3] == n
  }

  /** On the wire the high octet comes first. */
  lemma Octets(m: uint16, n: uint32)
    ensures Spell16(Be16(m), m) && Spell32(Be32(n), n)
  {
    var a, b, c := n / 0x100, n / 0x1_0000, n / 0x100_0000;
    assert b == a / 0x100 && c == b / 0x100;
  }

  /** The largest numbers of two and of four octets. */
  lemma AllOnes()
    ensures FromBe16([255, 255]) == 65535 == TWO_16 - 1
    ensures FromBe32([255, 255, 255, 255]) == 4294967295 == TWO_32 - 1
  {
  }

  lemma Be16RoundTrip(n: uint16)
    ensures FromBe16(Be16(n)) == n
  {
  }

  lemma Be32RoundTrip(n: uint32)
    ensures FromBe32(Be32(n)) == n
  {
    var a, b, c := n / 0x100, n / 0x1_0000, n / 0x100_0000;
    assert b == a / 0x100 && c == b / 0x100;
  }

  /** Decoding loses nothing: four octets are determined by the number they spell. */
  lemma Be32Injective(bs: seq<byte>, n: uint32)
    requires |bs| == 4 && FromBe32(bs) == n
    ensures bs == Be32(n)
  {
    var a, b := n / 0x100, n / 0x1_0000;
    assert a == (bs[0] as int * 0x100 + bs[1]) * 0x100 + bs[2];
    assert b == bs[0] as int * 0x100 + bs[1];
    assert n / 0x100_0000 == b / 0x100 == bs[0];
  }
}
