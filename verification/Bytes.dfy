/** Bytes and the fixed-width big- and little-endian integers of both protocols. */
module Bytes {

  type byte = b: int | 0 <= b < 256

  datatype Option<+T> = None | Some(value: T)

  lemma Assoc<T>(a: seq<T>, b: seq<T>, c: seq<T>)
    ensures a + (b + c) == a + b + c
  {
  }

  lemma NextMultiple(x: int, y: int, k: nat)
    requires x < y
    ensures x * k + k == (x + 1) * k <= y * k
  {
    var d := y - x - 1;
    assert d * k >= 0;
    assert y * k == (x + 1 + d) * k == x * k + k + d * k;
  }

  /** 256 to the power `n`: the number of values an `n`-byte field can hold. */
  function Radix(n: nat): (r: nat)
    ensures r > 0
  {
    if n == 0 then 1 else 256 * Radix(n - 1)
  }

  /** The `n`-byte network-order image of `v`; higher bits are cut, as a C narrowing cast does. */
  function BE(v: nat, n: nat): (s: seq<byte>)
    ensures |s| == n
  {
    if n == 0 then [] else BE(v / 256, n - 1) + [v % 256]
  }

  function FromBE(s: seq<byte>): (v: nat)
    ensures v < Radix(|s|)
  {
    if s == [] then 0 else 256 * FromBE(s[..|s| - 1]) + s[|s| - 1]
  }

  lemma {:induction false} BERoundTrip(v: nat, n: nat)
    requires v < Radix(n)
    ensures FromBE(BE(v, n)) == v
  {
    if n > 0 {
      BERoundTrip(v / 256, n - 1);
      assert BE(v, n)[..n - 1] == BE(v / 256, n - 1);
    }
  }

  /** A number written in as many bytes as it was read from. */
  lemma {:induction false} BEOfFromBE(s: seq<byte>)
    ensures BE(FromBE(s), |s|) == s
  {
    if s != [] {
      BEOfFromBE(s[..|s| - 1]);
      assert s == s[..|s| - 1] + [s[|s| - 1]];
    }
  }

  lemma ModUnique(v: nat, m: nat, t: nat, r: nat)
    requires m > 0 && v == t * m + r && r < m
    ensures v % m == r
  {
    var d := v / m;
    assert v == d * m + v % m;
    if d > t {
      NextMultiple(t, d, m);
    } else if d < t {
      NextMultiple(d, t, m);
    }
  }

  /** The low digits of a number, its last one apart. */
  lemma LowDigits(v: nat, r: nat)
    requires r > 0
    ensures v % (256 * r) == 256 * (v / 256 % r) + v % 256
  {
    var t, low := v / 256 / r, v / 256 % r;
    assert v / 256 == t * r + low;
    assert 256 * (t * r) == t * (256 * r);
    ModUnique(v, 256 * r, t, 256 * low + v % 256);
  }

  /** A field that is too short for a number keeps its low bits. */
  lemma {:induction false} BETruncates(v: nat, n: nat)
    ensures FromBE(BE(v, n)) == v % Radix(n)
  {
    if n > 0 {
      BETruncates(v / 256, n - 1);
      assert BE(v, n)[..n - 1] == BE(v / 256, n - 1);
      LowDigits(v, Radix(n - 1));
    }
  }

  lemma RadixValues()
    ensures Radix(1) == 0x100 && Radix(2) == 0x1_0000 && Radix(4) == 0x1_0000_0000
    ensures Radix(8) == 0x1_0000_0000_0000_0000
  {
    assert Radix(3) == 0x100_0000;
    assert Radix(4) == 0x1_0000_0000;
    assert Radix(6) == 0x1_0000_0000_0000;
    assert Radix(8) == 0x1_0000_0000_0000_0000;
  }

  /** Little-endian 16-bit field of the attribute protocol. */
  function LE16(v: nat): (s: seq<byte>)
    ensures |s| == 2
  {
    [v % 256, v / 256 % 256]
  }

  function FromLE16(s: seq<byte>): (v: nat)
    requires |s| >= 2
    ensures v < 0x1_0000
  {
    s[0] as int + 256 * (s[1] as int)
  }

  lemma NetworkWord(a: byte, b: byte)
    ensures FromBE([a, b]) == 256 * (a as int) + b as int
  {
    assert [a, b][..1] == [a] && [a][..0] == [];
  }

  /** The first byte of the attribute protocol counts ones, that of the service discovery protocol the most. */
  lemma ByteOrders(v: nat)
    requires v < 0x1_0000
    ensures LE16(v)[0] as int + 256 * (LE16(v)[1] as int) == v
    ensures 256 * (BE(v, 2)[0] as int) + BE(v, 2)[1] as int == v
  {
    assert BE(v, 2) == BE(v / 256, 1) + [v % 256];
    assert BE(v / 256, 1) == BE(v / 65536, 0) + [v / 256 % 256];
  }

  lemma LE16RoundTrip(v: nat, s: seq<byte>)
    requires v < 0x1_0000
    requires |s| >= 2 && s[..2] == LE16(v)
    ensures FromLE16(s) == v
  {
    assert s[0] == LE16(v)[0] && s[1] == LE16(v)[1];
  }
}
