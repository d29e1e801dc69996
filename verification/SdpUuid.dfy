/** UUID widening, narrowing and comparison, and the search pattern kept as a sorted list. */
module SdpUuid {
  import opened Bytes
  import opened SdpElements
  import opened SdpList

  const BASE_UUID: seq<byte> := [0x00, 0x00, 0x00, 0x00, 0x00, 0x00, 0x10, 0x00,
                                 0x80, 0x00, 0x00, 0x80, 0x5F, 0x9B, 0x34, 0xFB]

  predicate ValidUuid(u: Uuid) {
    match u
    case Short16(n) => n < Radix(2)
    case Short32(n) => n < Radix(4)
    case Long(bytes) => |bytes| == 16
  }

  /** `sdp_uuid_to_uuid128`: the bytes added to are zero in the base UUID, so adding overwrites. */
  function Widen(u: Uuid): (bytes: seq<byte>)
    requires ValidUuid(u)
    ensures |bytes| == 16
  {
    match u
    case Short16(n) => BASE_UUID[..2] + BE(n, 2) + BASE_UUID[4..]
    case Short32(n) => BE(n, 4) + BASE_UUID[4..]
    case Long(bytes) => bytes
  }

  /** The 128-bit number a UUID stands for: a short form counts in units of 2 to the 96th above the
      Bluetooth base UUID. */
  function Denotes(u: Uuid): nat
    requires ValidUuid(u)
  {
    match u
    case Short16(n) => n * Radix(12) + FromBE(BASE_UUID)
    case Short32(n) => n * Radix(12) + FromBE(BASE_UUID)
    case Long(bytes) => FromBE(bytes)
  }

  lemma MulAssoc(x: int, k: int)
    ensures x * (256 * k) == 256 * (x * k)
  {
  }

  lemma {:induction false} FromBEConcat(a: seq<byte>, b: seq<byte>)
    ensures FromBE(a + b) == FromBE(a) * Radix(|b|) + FromBE(b)
    decreases |b|
  {
    if b == [] {
      assert a + b == a;
    } else {
      var c, k := b[..|b| - 1], Radix(|b| - 1);
      assert (a + b)[..|a + b| - 1] == a + c;
      FromBEConcat(a, c);
      MulAssoc(FromBE(a), k);
      assert FromBE(a + b) == 256 * FromBE(a + c) + b[|b| - 1];
    }
  }

  lemma LastByte(x: nat, a: byte, y: nat, b: byte)
    requires 256 * x + a == 256 * y + b
    ensures x == y && a == b
  {
  }

  lemma {:induction false} FromBEInjective(a: seq<byte>, b: seq<byte>)
    requires |a| == |b| && FromBE(a) == FromBE(b)
    ensures a == b
  {
    if a != [] {
      var c, d := a[..|a| - 1], b[..|b| - 1];
      LastByte(FromBE(c), a[|a| - 1], FromBE(d), b[|b| - 1]);
      FromBEInjective(c, d);
      assert a == c + [a[|a| - 1]] && b == d + [b[|b| - 1]];
    }
  }

  lemma FromBEZeros(k: nat)
    ensures FromBE(seq(k, _ => 0)) == 0
  {
    if k > 0 {
      assert seq(k, _ => 0 as byte)[..k - 1] == seq(k - 1, _ => 0);
      FromBEZeros(k - 1);
    }
  }

  lemma FourBytes(a: byte, b: byte, c: byte, d: byte)
    ensures FromBE([a, b, c, d]) == ((a as int * 256 + b as int) * 256 + c as int) * 256 + d as int
  {
    assert [a][..0] == [] && FromBE([a]) == a as int;
    assert [a, b][..1] == [a] && FromBE([a, b]) == a as int * 256 + b as int;
    assert [a, b, c][..2] == [a, b];
    assert [a, b, c, d][..3] == [a, b, c];
  }

  /** The base UUID is 00000000-0000-1000-8000-00805F9B34FB, and a short form counts in units of 2 to the 96th. */
  lemma BaseNumber()
    ensures FromBE(BASE_UUID) == 0x00000000_00001000_80000080_5F9B34FB
    ensures Radix(12) == 0x1_00000000_00000000_00000000
  {
    hide FromBE;
    RadixValues();
    assert Radix(9) == 256 * Radix(8) && Radix(10) == 256 * Radix(9) && Radix(11) == 256 * Radix(10);
    var a: seq<byte>, b: seq<byte> := [0x00, 0x00, 0x00, 0x00], [0x00, 0x00, 0x10, 0x00];
    var c: seq<byte>, d: seq<byte> := [0x80, 0x00, 0x00, 0x80], [0x5F, 0x9B, 0x34, 0xFB];
    FourBytes(0x00, 0x00, 0x00, 0x00);
    FourBytes(0x00, 0x00, 0x10, 0x00);
    FourBytes(0x80, 0x00, 0x00, 0x80);
    FourBytes(0x5F, 0x9B, 0x34, 0xFB);
    FromBEConcat(a, b);
    FromBEConcat(a + b, c);
    FromBEConcat(a + b + c, d);
    assert BASE_UUID == a + b + c + d;
  }

  lemma BaseHighBytes()
    ensures FromBE(BASE_UUID) == FromBE(BASE_UUID[4..])
  {
    var high := seq(4, _ => 0);
    assert BASE_UUID == high + BASE_UUID[4..];
    FromBEConcat(high, BASE_UUID[4..]);
    FromBEZeros(4);
  }

  /** Widening yields the denoted number, for all three forms. */
  lemma WidenDenotes(u: Uuid)
    requires ValidUuid(u)
    ensures FromBE(Widen(u)) == Denotes(u)
  {
    BaseHighBytes();
    match u
    case Short16(n) =>
      var high := seq(2, _ => 0) + BE(n, 2);
      assert Widen(u) == high + BASE_UUID[4..];
      FromBEConcat(high, BASE_UUID[4..]);
      FromBEConcat(seq(2, _ => 0), BE(n, 2));
      FromBEZeros(2);
      BERoundTrip(n, 2);
    case Short32(n) =>
      FromBEConcat(BE(n, 4), BASE_UUID[4..]);
      BERoundTrip(n, 4);
    case Long(_) =>
  }

  /** `memcmp`. */
  function MemCmp(a: seq<byte>, b: seq<byte>): int
    requires |a| == |b|
  {
    if a == [] then 0 else if a[0] != b[0] then a[0] - b[0] else MemCmp(a[1..], b[1..])
  }

  lemma {:induction false} MemCmpIsOrder(a: seq<byte>, b: seq<byte>)
    requires |a| == |b|
    ensures MemCmp(a, b) < 0 <==> FromBE(a) < FromBE(b)
    ensures MemCmp(a, b) == 0 <==> FromBE(a) == FromBE(b)
  {
    if a != [] {
      MemCmpIsOrder(a[1..], b[1..]);
      assert a == [a[0]] + a[1..] && b == [b[0]] + b[1..];
      FromBEConcat([a[0]], a[1..]);
      FromBEConcat([b[0]], b[1..]);
      assert FromBE([a[0]]) == a[0] && FromBE([b[0]]) == b[0] by {
        assert [a[0]][..0] == [] && [b[0]][..0] == [];
      }
      LeadingByte(a[0], b[0], Radix(|a| - 1), FromBE(a[1..]), FromBE(b[1..]));
    }
  }

  lemma LeadingByte(x: byte, y: byte, k: nat, r: nat, s: nat)
    requires r < k && s < k
    ensures x < y ==> x * k + r < y * k + s
    ensures x > y ==> x * k + r > y * k + s
  {
    if x < y {
      NextMultiple(x, y, k);
    } else if x > y {
      NextMultiple(y, x, k);
    }
  }

  /** `sdp_uuid_cmp`: both arguments widened, then compared byte by byte. */
  function UuidCmp(u: Uuid, v: Uuid): int
    requires ValidUuid(u) && ValidUuid(v)
  {
    MemCmp(Widen(u), Widen(v))
  }

  /** Comparison sees the denoted number only: 0 exactly for equal UUIDs, and their order otherwise. */
  lemma UuidCmpDenotes(u: Uuid, v: Uuid)
    requires ValidUuid(u) && ValidUuid(v)
    ensures UuidCmp(u, v) == 0 <==> Denotes(u) == Denotes(v)
    ensures UuidCmp(u, v) < 0 <==> Denotes(u) < Denotes(v)
  {
    WidenDenotes(u);
    WidenDenotes(v);
    MemCmpIsOrder(Widen(u), Widen(v));
  }

  /** `sdp_uuid128_to_uuid`. */
  function Narrow(u: Uuid): Uuid {
    if !u.Long? || |u.bytes| != 16 || u.bytes[4..] != BASE_UUID[4..] then u
    else
      var data := FromBE(u.bytes[..4]);
      if data <= 0xffff then Short16(data) else Short32(data)
  }

  /** Bytes a form takes on the wire. */
  function FormSize(u: Uuid): nat {
    match u
    case Short16(_) => 2
    case Short32(_) => 4
    case Long(_) => 16
  }

  lemma NarrowKeepsUuid(u: Uuid)
    requires ValidUuid(u)
    ensures ValidUuid(Narrow(u)) && Denotes(Narrow(u)) == Denotes(u)
  {
    RadixValues();
    if Narrow(u) != u {
      var head := u.bytes[..4];
      assert u.bytes == head + BASE_UUID[4..];
      BaseHighBytes();
      FromBEConcat(head, BASE_UUID[4..]);
    }
  }

  lemma ShortIsNarrow(v: Uuid)
    requires ValidUuid(v) && !v.Long?
    ensures Widen(v)[4..] == BASE_UUID[4..] && FromBE(Widen(v)[..4]) == v.n
  {
    match v
    case Short16(n) =>
      assert Widen(v)[..4] == seq(2, _ => 0) + BE(n, 2);
      FromBEConcat(seq(2, _ => 0), BE(n, 2));
      FromBEZeros(2);
      BERoundTrip(n, 2);
    case Short32(n) =>
      assert Widen(v)[..4] == BE(n, 4);
      BERoundTrip(n, 4);
  }

  /** Widening and then narrowing finds the shortest form of the same UUID. */
  lemma NarrowIsShortest(u: Uuid, v: Uuid)
    requires ValidUuid(u) && ValidUuid(v) && Denotes(u) == Denotes(v)
    ensures ValidUuid(Narrow(Long(Widen(u)))) && Denotes(Narrow(Long(Widen(u)))) == Denotes(u)
    ensures FormSize(Narrow(Long(Widen(u)))) <= FormSize(v)
  {
    WidenDenotes(u);
    WidenDenotes(v);
    NarrowKeepsUuid(Long(Widen(u)));
    FromBEInjective(Widen(u), Widen(v));
    if !v.Long? {
      ShortIsNarrow(v);
      RadixValues();
    }
  }

  function Rank(w: seq<byte>): int {
    FromBE(w)
  }

  /** Strictly ascending as 128-bit numbers, so no UUID twice. */
  ghost predicate CanonicalPattern(s: seq<seq<byte>>) {
    (forall w <- s :: |w| == 16) && StrictlySorted(s, Rank)
  }

  /** Comparison of pattern entries; `sdp_uuid128_cmp`. */
  function Uuid128Cmp(a: seq<byte>, b: seq<byte>): int {
    if |a| == |b| then MemCmp(a, b) else |a| - |b|
  }

  lemma InsertIntoPattern(s: seq<seq<byte>>, w: seq<byte>)
    requires CanonicalPattern(s) && |w| == 16 && w !in s
    ensures CanonicalPattern(Inserted(s, w, Uuid128Cmp))
    ensures Elems(Inserted(s, w, Uuid128Cmp)) == Elems(s) + {w}
  {
    var k := InsertedAt(s, w, Uuid128Cmp);
    InsertedElems(s, w, Uuid128Cmp);
    if k > 0 {
      assert Uuid128Cmp(s[k - 1], w) < 0;
      MemCmpIsOrder(s[k - 1], w);
    }
    if k < |s| {
      assert Uuid128Cmp(s[k], w) >= 0;
      MemCmpIsOrder(s[k], w);
      if FromBE(s[k]) == FromBE(w) {
        FromBEInjective(s[k], w);
      }
    }
    SortedInsert(s, k, w, Rank);
  }

  lemma FoundInPattern(s: seq<seq<byte>>, w: seq<byte>)
    requires (forall x <- s :: |x| == 16) && |w| == 16
    ensures Found(s, x => Uuid128Cmp(x, w)).Some? <==> w in s
  {
    var k := FoundAt(s, x => Uuid128Cmp(x, w));
    forall i | 0 <= i < |s| ensures Uuid128Cmp(s[i], w) == 0 <==> s[i] == w {
      MemCmpIsOrder(s[i], w);
      if FromBE(s[i]) == FromBE(w) {
        FromBEInjective(s[i], w);
      }
    }
  }

  method AddWide(pattern: List<seq<byte>>, wide: seq<byte>)
    requires pattern.Valid() && CanonicalPattern(pattern.Contents()) && |wide| == 16
    modifies pattern, pattern.Repr()
    ensures pattern.Valid() && CanonicalPattern(pattern.Contents())
    ensures Elems(pattern.Contents()) == Elems(old(pattern.Contents())) + {wide}
    ensures fresh(pattern.Repr() - old(pattern.Repr()))
  {
    ghost var s := pattern.Contents();
    FoundInPattern(s, wide);
    var present := pattern.Find(x => Uuid128Cmp(x, wide));
    if present == None {
      InsertIntoPattern(s, wide);
      pattern.InsertSorted(wide, Uuid128Cmp);
    } else {
      assert Elems(s) == Elems(s) + {wide};
    }
  }

  /** `sdp_pattern_add_uuid`: the pattern stays canonical and gains exactly this UUID. */
  method PatternAdd(pattern: List<seq<byte>>, u: Uuid)
    requires pattern.Valid() && CanonicalPattern(pattern.Contents()) && ValidUuid(u)
    modifies pattern, pattern.Repr()
    ensures pattern.Valid() && CanonicalPattern(pattern.Contents())
    ensures Elems(pattern.Contents()) == Elems(old(pattern.Contents())) + {Widen(u)}
    ensures fresh(pattern.Repr() - old(pattern.Repr()))
  {
    AddWide(pattern, Widen(u));
  }

  ghost function WideSet(us: seq<Uuid>): set<seq<byte>>
    requires forall u <- us :: ValidUuid(u)
  {
    if us == [] then {} else WideSet(us[..|us| - 1]) + {Widen(us[|us| - 1])}
  }

  lemma WideSetStep(before: set<seq<byte>>, us: seq<Uuid>, i: nat)
    requires i < |us| && forall u <- us :: ValidUuid(u)
    ensures before + WideSet(us[..i + 1]) == before + WideSet(us[..i]) + {Widen(us[i])}
  {
    assert us[..i + 1][..i] == us[..i] && us[..i + 1][i] == us[i];
  }

  /** `sdp_pattern_add_uuidseq`: whatever the forms and the order of the additions. */
  method PatternAddAll(pattern: List<seq<byte>>, us: seq<Uuid>)
    requires pattern.Valid() && CanonicalPattern(pattern.Contents()) && forall u <- us :: ValidUuid(u)
    modifies pattern, pattern.Repr()
    ensures pattern.Valid() && CanonicalPattern(pattern.Contents())
    ensures Elems(pattern.Contents()) == Elems(old(pattern.Contents())) + WideSet(us)
  {
    ghost var before := Elems(pattern.Contents());
    for i := 0 to |us|
      invariant pattern.Valid() && CanonicalPattern(pattern.Contents())
      invariant fresh(pattern.Repr() - old(pattern.Repr()))
      invariant Elems(pattern.Contents()) == before + WideSet(us[..i])
    {
      WideSetStep(before, us, i);
      PatternAdd(pattern, us[i]);
    }
    assert us[..|us|] == us;
  }

  /** Two canonical patterns with the same UUIDs are the same list: the order of additions is lost. */
  lemma CanonicalPatternUnique(s: seq<seq<byte>>, t: seq<seq<byte>>)
    requires CanonicalPattern(s) && CanonicalPattern(t) && Elems(s) == Elems(t)
    ensures s == t
  {
    SortedUnique(s, t, Rank);
  }
}
