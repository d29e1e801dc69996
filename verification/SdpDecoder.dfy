/** `sdp_extract_attr` and its helpers as a function of the remaining bytes. */
module SdpDecoder {
  import opened Bytes
  import opened SdpElements

  /** `Hang`: the loop of `extract_seq` makes no progress and never ends.
      `Fail`: the C result is NULL.  `Got`: an element and the number of bytes consumed. */
  datatype Extracted = Hang | Fail | Got(element: Element, size: nat)
  datatype Items = ItemsHang | Items(elements: seq<Element>, size: nat)

  /** A sequence header, or the reason why `sdp_extract_seqtype` returns 0. */
  datatype Header = NoHeader | Header(scanned: nat, size: int)

  /** A 32-bit length is stored in an `int`: the upper half of the range turns negative. */
  function AsInt32(v: nat): int
    requires v < 0x1_0000_0000
  {
    if v < 0x8000_0000 then v else v - 0x1_0000_0000
  }

  function SeqHeader(p: seq<byte>): (h: Header)
    requires |p| >= 1
    ensures h.Header? ==> 2 <= h.scanned <= |p|
  {
    var k := LengthBytes(p[0]);
    if !IsContainer(p[0]) || |p| - 1 < k then NoHeader
    else
      var v := FromBE(p[1..1 + k]);
      RadixValues();
      Header(1 + k, if k == 4 then AsInt32(v) else v)
  }

  function ExtractInt(p: seq<byte>): (r: Extracted)
    requires |p| >= 1
    ensures r.Got? ==> 1 <= r.size <= |p|
  {
    var dtd, w := p[0], Width(p[0]);
    if |p| - 1 < w then Fail
    else if dtd == NIL then Got(Element(dtd, NoValue, []), 1)
    else Got(Element(dtd, Num(FromBE(p[1..1 + w])), []), 1 + w)
  }

  function ExtractUuid(p: seq<byte>): (r: Extracted)
    requires |p| >= 1
    ensures r.Got? ==> 1 <= r.size <= |p|
  {
    var dtd, w := p[0], Width(p[0]);
    if |p| - 1 < w then Fail
    else
      var raw := p[1..1 + w];
      var uuid := if dtd == UUID16 then Short16(FromBE(raw))
                  else if dtd == UUID32 then Short32(FromBE(raw))
                  else Long(raw);
      Got(Element(dtd, Id(uuid), []), 1 + w)
  }

  function ExtractStr(p: seq<byte>): (r: Extracted)
    requires |p| >= 1
    ensures r.Got? ==> 1 <= r.size <= |p|
  {
    var dtd, k := p[0], LengthBytes(p[0]);
    if IsLongStr(dtd) || |p| - 1 < k then Fail
    else
      var n := FromBE(p[1..1 + k]);
      if |p| - 1 - k < n then Fail
      else Got(Element(dtd, Text(p[1 + k..1 + k + n]), []), 1 + k + n)
  }

  /** `extract_seq`: a header that cannot be read still yields an element, of size 0. */
  function ExtractSeq(p: seq<byte>): (r: Extracted)
    requires |p| >= 1
    ensures r.Got? ==> r.size <= |p|
    decreases |p|, 0
  {
    match SeqHeader(p)
    case NoHeader => Got(Element(p[0], NoValue, []), 0)
    case Header(scanned, size) =>
      match ExtractItems(p[scanned..], size)
      case ItemsHang => Hang
      case Items(elements, n) => Got(Element(p[0], NoValue, elements), scanned + n)
  }

  /** The loop of `extract_seq` with `left` bytes of the announced length to go.  Elements are
      bounded by the packet, not by the sequence; an element of size 0 repeats forever. */
  function ExtractItems(p: seq<byte>, left: int): (r: Items)
    ensures r.Items? ==> r.size <= |p|
    decreases |p|, 2
  {
    if left <= 0 then Items([], 0)
    else
      match ExtractAttr(p)
      case Hang => ItemsHang
      case Fail => Items([], 0)
      case Got(e, k) =>
        if k == 0 then ItemsHang
        else
          match ExtractItems(p[k..], left - k)
          case ItemsHang => ItemsHang
          case Items(rest, n) => Items([e] + rest, k + n)
  }

  function ExtractAttr(p: seq<byte>): (r: Extracted)
    ensures r.Got? ==> r.size <= |p|
    decreases |p|, 1
  {
    if p == [] then Fail
    else if p[0] == NIL || IsInt(p[0]) then ExtractInt(p)
    else if IsUuid(p[0]) then ExtractUuid(p)
    else if IsStr(p[0]) then ExtractStr(p)
    else if IsContainer(p[0]) then ExtractSeq(p)
    else Fail
  }

  /** What is read back of a length behind a descriptor: a field of `k` bytes keeps its low bits, and four
      bytes go through a signed `int`. */
  function Announced(dtd: byte, len: nat): int {
    var k := LengthBytes(dtd);
    var low := len % 0x1_0000_0000;
    if k != 4 then len % (if k == 1 then 0x100 else 0x1_0000)
    else if low < 0x8000_0000 then low else low - 0x1_0000_0000
  }

  /** The lengths in the image of a tree tell its elements apart: those of strings are exact, and those of
      containers reach into the last member.  A string that was never allocated has no image to be read. */
  ghost predicate Legible(e: Element) {
    && !IsLongStr(e.dtd)
    && (IsStr(e.dtd) ==> Announced(e.dtd, |Body(e)|) == |Body(e)|)
    && (e.items != [] ==> Announced(e.dtd, |Body(e)|) > |Body(e)| - |Encode(e.items[|e.items| - 1])|)
    && forall i :: 0 <= i < |e.items| ==> Legible(e.items[i])
  }

  ghost predicate AllLegible(es: seq<Element>) {
    forall i :: 0 <= i < |es| ==> Legible(es[i])
  }

  /** Every length fits its descriptor, and every string is there. */
  ghost predicate Fits(e: Element) {
    && !IsLongStr(e.dtd) && |Body(e)| < LengthLimit(e.dtd)
    && forall i :: 0 <= i < |e.items| ==> Fits(e.items[i])
  }

  function LengthLimit(dtd: byte): nat {
    match LengthBytes(dtd)
    case 1 => 0x100
    case 2 => 0x1_0000
    case _ => 0x8000_0000
  }

  lemma FittingLength(dtd: byte, len: nat)
    requires LengthBytes(dtd) > 0 && len < LengthLimit(dtd)
    ensures Announced(dtd, len) == len
  {
  }

  lemma {:induction false} FitsIsLegible(e: Element)
    requires Supported(e) && Fits(e)
    ensures Legible(e)
  {
    hide Announced, Body, LengthLimit;
    forall i | 0 <= i < |e.items| ensures Legible(e.items[i]) {
      FitsIsLegible(e.items[i]);
    }
    if LengthBytes(e.dtd) > 0 {
      FittingLength(e.dtd, |Body(e)|);
    }
  }

  /** Cutting a descriptor, a length field and a body back out of their concatenation. */
  lemma Split3(dtd: byte, field: seq<byte>, body: seq<byte>, s: seq<byte>)
    ensures var p := [dtd] + field + body + s;
            && p[0] == dtd
            && p[1..1 + |field|] == field
            && p[1 + |field|..] == body + s
            && p[1 + |field|..1 + |field| + |body|] == body
  {
  }

  lemma LengthReadBack(dtd: byte, len: nat)
    requires LengthBytes(dtd) > 0
    ensures var k := LengthBytes(dtd);
            var v := FromBE(BE(len, k));
            v < Radix(k) && Announced(dtd, len) == if k == 4 then AsInt32(v) else v
  {
    RadixValues();
    BETruncates(len, LengthBytes(dtd));
  }

  lemma AnnouncedAtMost(dtd: byte, len: nat)
    requires LengthBytes(dtd) > 0
    ensures Announced(dtd, len) <= len && (LengthBytes(dtd) < 4 ==> Announced(dtd, len) >= 0)
  {
  }

  /** Of a string as much is read as its length field announces. */
  lemma StrRead(dtd: byte, chars: seq<byte>, s: seq<byte>)
    requires IsStr(dtd) && !IsLongStr(dtd)
    ensures var k, n := LengthBytes(dtd), Announced(dtd, |chars|);
            && 0 <= n <= |chars|
            && ExtractStr([dtd] + BE(|chars|, k) + chars + s) == Got(Element(dtd, Text(chars[..n]), []), 1 + k + n)
  {
    hide BE, FromBE, Radix, Announced;
    var n := Announced(dtd, |chars|);
    AnnouncedAtMost(dtd, |chars|);
    LengthReadBack(dtd, |chars|);
    StrCut(dtd, BE(|chars|, LengthBytes(dtd)), chars, s, n);
  }

  lemma StrCut(dtd: byte, field: seq<byte>, chars: seq<byte>, s: seq<byte>, n: nat)
    requires n <= |chars|
    ensures var p := [dtd] + field + chars + s;
            && p[0] == dtd && |p| == 1 + |field| + |chars| + |s|
            && p[1..1 + |field|] == field && p[1 + |field|..1 + |field| + n] == chars[..n]
  {
    Split3(dtd, field, chars, s);
    var p := [dtd] + field + chars + s;
    assert p[1 + |field|..][..n] == p[1 + |field|..1 + |field| + n];
  }

  /** A string is read back if and only if its length is. */
  lemma StrRoundTripIff(e: Element, s: seq<byte>)
    requires SupportedNode(e) && IsStr(e.dtd)
    ensures var r := ExtractAttr(Encode(e) + s);
            && (r.Got? && r.element == e <==> Legible(e))
            && (Legible(e) ==> r == Got(e, |Encode(e)|))
  {
    hide BE, FromBE, Announced, ExtractStr;
    var p := Encode(e) + s;
    assert p[0] == e.dtd && ExtractAttr(p) == ExtractStr(p);
    if IsLongStr(e.dtd) {
      LongStrFails(p);
    } else {
      assert Body(e) == e.val.chars;
      StrRead(e.dtd, e.val.chars, s);
    }
  }

  lemma LongStrFails(p: seq<byte>)
    requires p != [] && IsLongStr(p[0])
    ensures ExtractStr(p) == Fail
  {
  }

  /** A fixed-size element is read from exactly the bytes of its width. */
  lemma FixedField(dtd: byte, body: seq<byte>, s: seq<byte>)
    requires dtd == NIL || IsInt(dtd) || IsUuid(dtd)
    requires |body| == Width(dtd)
    ensures var p := [dtd] + body + s; p[0] == dtd && |p| - 1 >= Width(dtd) && p[1..1 + Width(dtd)] == body
  {
  }

  lemma UuidRoundTrip(e: Element, s: seq<byte>)
    requires SupportedNode(e) && IsUuid(e.dtd)
    ensures ExtractAttr(Encode(e) + s) == Got(e, |Encode(e)|)
  {
    var body := LeafBytes(e);
    assert Encode(e) == [e.dtd] + body;
    FixedField(e.dtd, body, s);
    match e.val.uuid
    case Short16(n) => BERoundTrip(n, 2);
    case Short32(n) => BERoundTrip(n, 4);
    case Long(_) =>
  }

  lemma IntRoundTrip(e: Element, s: seq<byte>)
    requires SupportedNode(e) && (e.dtd == NIL || IsInt(e.dtd))
    ensures ExtractAttr(Encode(e) + s) == Got(e, |Encode(e)|)
  {
    var body, w := LeafBytes(e), Width(e.dtd);
    assert Encode(e) == [e.dtd] + body && |body| == w;
    FixedField(e.dtd, body, s);
    var p := Encode(e) + s;
    assert ExtractAttr(p) == ExtractInt(p);
    if e.dtd != NIL {
      BERoundTrip(e.val.n, w);
      assert FromBE(p[1..1 + w]) == e.val.n;
    }
  }

  /** A sequence header in front of a body announces what fits of its length. */
  lemma SeqHeaderOf(dtd: byte, body: seq<byte>, s: seq<byte>)
    requires IsContainer(dtd)
    ensures var k := LengthBytes(dtd);
            var p := [dtd] + BE(|body|, k) + body + s;
            SeqHeader(p) == Header(1 + k, Announced(dtd, |body|)) && p[1 + k..] == body + s
  {
    hide BE, FromBE, Radix, Announced, AsInt32;
    var k := LengthBytes(dtd);
    assert LengthBytes(dtd) > 0;
    LengthReadBack(dtd, |body|);
    Split3(dtd, BE(|body|, k), body, s);
  }

  lemma HeaderRoundTrip(e: Element, s: seq<byte>)
    requires IsContainer(e.dtd)
    ensures SeqHeader(Encode(e) + s) == Header(TypeSize(e.dtd), Announced(e.dtd, |Body(e)|))
    ensures (Encode(e) + s)[TypeSize(e.dtd)..] == EncodeAll(e.items) + s
    ensures Announced(e.dtd, |Body(e)|) <= |Body(e)|
  {
    hide SeqHeader, BE, Announced;
    AnnouncedAtMost(e.dtd, |Body(e)|);
    SeqHeaderOf(e.dtd, Body(e), s);
    assert Encode(e) == [e.dtd] + BE(|Body(e)|, LengthBytes(e.dtd)) + Body(e);
  }

  /** Decoding the generated bytes, whatever follows them, gives the tree back if and only if its lengths
      tell its elements apart, and then consumes exactly its image. */
  lemma {:induction false} RoundTripIff(e: Element, s: seq<byte>)
    requires Supported(e)
    ensures var r := ExtractAttr(Encode(e) + s);
            && (r.Got? && r.element == e <==> Legible(e))
            && (Legible(e) ==> r == Got(e, |Encode(e)|))
    decreases e, 1
  {
    if IsContainer(e.dtd) {
      ContainerRoundTripIff(e, s);
    } else if IsStr(e.dtd) {
      StrRoundTripIff(e, s);
    } else if IsUuid(e.dtd) {
      UuidRoundTrip(e, s);
    } else {
      IntRoundTrip(e, s);
    }
  }

  lemma {:induction false} ContainerRoundTripIff(e: Element, s: seq<byte>)
    requires Supported(e) && IsContainer(e.dtd)
    ensures var r := ExtractAttr(Encode(e) + s);
            && (r.Got? && r.element == e <==> Legible(e))
            && (Legible(e) ==> r == Got(e, |Encode(e)|))
    decreases e, 0
  {
    hide ExtractItems, SeqHeader, Announced;
    var p, len := Encode(e) + s, Announced(e.dtd, |Body(e)|);
    HeaderRoundTrip(e, s);
    ItemsRoundTripIff(e.items, s, len);
    assert p[0] == e.dtd && ExtractAttr(p) == ExtractSeq(p);
    assert Body(e) == EncodeAll(e.items);
    assert Legible(e) <==> AllLegible(e.items) && ReachesLast(e.items, len);
  }

  /** The announced length reaches into the last member. */
  ghost predicate ReachesLast(es: seq<Element>, len: int) {
    es == [] || len > |EncodeAll(es)| - |Encode(es[|es| - 1])|
  }

  lemma {:induction false} ItemsRoundTripIff(es: seq<Element>, s: seq<byte>, len: int)
    requires AllSupported(es) && len <= |EncodeAll(es)|
    ensures var r := ExtractItems(EncodeAll(es) + s, len);
            && (r.Items? && r.elements == es <==> AllLegible(es) && ReachesLast(es, len))
            && (AllLegible(es) && ReachesLast(es, len) ==> r == Items(es, |EncodeAll(es)|))
    decreases es, 2
  {
    hide Encode, EncodeAll, Legible, ExtractAttr, ReachesLast;
    if es == [] {
      NoItems(s, len);
    } else {
      FirstReaches(es, len);
      FirstLegible(es);
      if len > 0 {
        var rest := EncodeAll(es[1..]) + s;
        assert EncodeAll(es) + s == Encode(es[0]) + rest;
        RoundTripIff(es[0], rest);
        ItemsRoundTripIff(es[1..], s, len - |Encode(es[0])|);
        assert (EncodeAll(es) + s)[|Encode(es[0])|..] == rest;
      }
    }
  }

  lemma NoItems(s: seq<byte>, len: int)
    requires len <= |EncodeAll([])|
    ensures EncodeAll([]) == [] && ReachesLast([], len) && ExtractItems(EncodeAll([]) + s, len) == Items([], 0)
  {
  }

  lemma FirstReaches(es: seq<Element>, len: int)
    requires es != []
    ensures EncodeAll(es) == Encode(es[0]) + EncodeAll(es[1..]) && |Encode(es[0])| > 0
    ensures ReachesLast(es, len) <==> len > 0 && ReachesLast(es[1..], len - |Encode(es[0])|)
  {
    hide Encode;
    EncodeNonEmpty(es[0]);
    if |es| > 1 {
      assert es[1..][|es| - 2] == es[|es| - 1];
      EncodeAllStep(es[1..], |es| - 2);
    }
  }

  lemma FirstLegible(es: seq<Element>)
    requires es != []
    ensures AllLegible(es) <==> Legible(es[0]) && AllLegible(es[1..])
  {
    hide Legible;
    assert forall i :: 0 < i < |es| ==> es[i] == es[1..][i - 1];
  }

  lemma EncodeNonEmpty(e: Element)
    ensures |Encode(e)| > 0
  {
  }

  /** So every tree whose lengths fit comes back. */
  lemma RoundTrip(e: Element, s: seq<byte>)
    requires Supported(e) && Legible(e)
    ensures ExtractAttr(Encode(e) + s) == Got(e, |Encode(e)|)
  {
    RoundTripIff(e, s);
  }

  /** The element of a 32-bit string anywhere in the tree. */
  ghost predicate HoldsLongStr(e: Element) {
    IsLongStr(e.dtd) || exists i :: 0 <= i < |e.items| && HoldsLongStr(e.items[i])
  }

  lemma {:induction false} LongStrIllegible(e: Element)
    requires HoldsLongStr(e)
    ensures !Legible(e)
  {
    if !IsLongStr(e.dtd) {
      var i :| 0 <= i < |e.items| && HoldsLongStr(e.items[i]);
      LongStrIllegible(e.items[i]);
    }
  }

  /** The element of a 32-bit string is generated as its five bytes of header and never read back, nor is any
      tree that holds one. */
  lemma LongStrNeverReadBack(e: Element, s: seq<byte>)
    requires Supported(e) && HoldsLongStr(e)
    ensures IsLongStr(e.dtd) ==> Encode(e) == [e.dtd, 0, 0, 0, 0] && ExtractAttr(Encode(e) + s) == Fail
    ensures var r := ExtractAttr(Encode(e) + s);
            !(r.Got? && r.element == e)
  {
    LongStrIllegible(e);
    RoundTripIff(e, s);
    if IsLongStr(e.dtd) {
      var p := Encode(e) + s;
      LongStrFails(p);
      ZeroField();
      assert p[0] == e.dtd && ExtractAttr(p) == ExtractStr(p);
    }
  }

  lemma ZeroField()
    ensures BE(0, 4) == [0, 0, 0, 0]
  {
    assert BE(0, 1) == [0];
    assert BE(0, 2) == [0, 0];
    assert BE(0, 3) == [0, 0, 0];
  }

  /** A length need not fit for a tree to come back: an ALT8 that announces 44 of its 300 bytes does. */
  lemma LegibleWithoutFitting(chars: seq<byte>, s: seq<byte>)
    requires |chars| == 297
    ensures var e := Element(ALT8, NoValue, [Element(TEXT_STR16, Text(chars), [])]);
            |Body(e)| == 300 && !Fits(e) && ExtractAttr(Encode(e) + s) == Got(e, |Encode(e)|)
  {
    var member := Element(TEXT_STR16, Text(chars), []);
    var e := Element(ALT8, NoValue, [member]);
    assert |Encode(member)| == 300;
    assert [member][1..] == [] && EncodeAll([member]) == Encode(member) + EncodeAll([]);
    assert Body(e) == EncodeAll([member]) && |Body(e)| == 300;
    assert Announced(ALT8, 300) == 44;
    assert e.items == [member] && Legible(member) && Legible(e);
    RoundTrip(e, s);
  }

  /** What the decoder returns for the encoder's output is the tree the encoder left in memory. */
  lemma PromotedRoundTrip(e: Element, s: seq<byte>)
    requires Supported(e) && Legible(Promote(e))
    ensures ExtractAttr(Encode(Promote(e)) + s) == Got(Promote(e), |Encode(Promote(e))|)
  {
    PromoteKeepsShape(e);
    RoundTrip(Promote(e), s);
  }

  /** Two promoted trees with the same bytes are the same tree. */
  lemma EncodeInjective(e: Element, f: Element)
    requires Supported(e) && Legible(e) && Supported(f) && Legible(f)
    requires Encode(e) == Encode(f)
    ensures e == f
  {
    RoundTrip(e, []);
    RoundTrip(f, []);
  }

  // ---------------------------------------------------------------- when the decoder ends

  /** Bytes of an element that is not a sequence, if the descriptor is known and the packet holds them. */
  function LeafEnd(p: seq<byte>): (end: Option<nat>)
    requires p != []
    ensures end.Some? ==> 1 <= end.value <= |p|
  {
    var dtd, k := p[0], LengthBytes(p[0]);
    if dtd == NIL || IsInt(dtd) || IsUuid(dtd) then Within(p, 1 + Width(dtd))
    else if IsStr(dtd) && !IsLongStr(dtd) && |p| > k then Within(p, 1 + k + FromBE(p[1..1 + k]))
    else None
  }

  function Within(p: seq<byte>, end: nat): Option<nat> {
    if end <= |p| then Some(end) else None
  }

  /** One flat pass over a packet: how far it comes, or `Cut` when it meets a sequence header that the
      packet does not hold. */
  datatype Pass = Cut | Through(n: nat)

  function Further(k: nat, rest: Pass): Pass {
    if rest.Cut? then Cut else Through(k + rest.n)
  }

  /** The pass over whatever begins less than `reach` bytes from here.  A sequence is not descended into: its
      header is stepped over, and its announced length may only push the reach out. */
  function FlatPass(p: seq<byte>, reach: int): (r: Pass)
    ensures r.Through? ==> r.n <= |p|
    decreases |p|
  {
    if reach <= 0 || p == [] then Through(0)
    else if IsContainer(p[0]) then
      match SeqHeader(p)
      case NoHeader => Cut
      case Header(s, len) => Further(s, FlatPass(p[s..], if len > reach - s then len else reach - s))
    else
      match LeafEnd(p)
      case None => Through(0)
      case Some(k) => Further(k, FlatPass(p[k..], reach - k))
  }

  /** Nothing can be read here. */
  predicate Stuck(p: seq<byte>) {
    p == [] || (!IsContainer(p[0]) && LeafEnd(p).None?)
  }

  lemma LeafEnds(p: seq<byte>)
    requires p != [] && !IsContainer(p[0])
    ensures match LeafEnd(p)
            case None => ExtractAttr(p).Fail?
            case Some(k) => ExtractAttr(p).Got? && ExtractAttr(p).size == k
  {
  }

  lemma StuckPass(p: seq<byte>, reach: int)
    requires Stuck(p)
    ensures FlatPass(p, reach) == Through(0)
  {
  }

  /** Where the loop of `extract_seq` stops a flat pass with at least its reach comes by too; it stops only
      at its end or where nothing can be read. */
  ghost predicate InStep(r: Items, p: seq<byte>, left: int, reach: int) {
    match r
    case ItemsHang => FlatPass(p, reach).Cut?
    case Items(_, n) =>
      n <= |p| && FlatPass(p, reach) == Further(n, FlatPass(p[n..], reach - n)) && (n >= left || Stuck(p[n..]))
  }

  /** The loop past an element of `k` bytes. */
  lemma ItemsPast(p: seq<byte>, left: int, k: nat)
    requires left > 0 && ExtractAttr(p).Got? && ExtractAttr(p).size == k > 0
    ensures Longer(ExtractItems(p, left), k, ExtractItems(p[k..], left - k))
  {
  }

  ghost predicate Longer(r: Items, k: nat, rest: Items) {
    if rest.ItemsHang? then r.ItemsHang? else r.Items? && r.size == k + rest.size
  }

  lemma StepPast(p: seq<byte>, left: int, reach: int, k: nat, r: Items, rest: Items)
    requires k <= |p| && Longer(r, k, rest)
    requires FlatPass(p, reach) == Further(k, FlatPass(p[k..], reach - k))
    requires InStep(rest, p[k..], left - k, reach - k)
    ensures InStep(r, p, left, reach)
  {
    hide FlatPass;
    if rest.Items? {
      assert p[k..][rest.size..] == p[k + rest.size..];
      assert reach - k - rest.size == reach - r.size;
    }
  }

  /** A header that cannot be read is read again and again. */
  lemma HeaderlessInStep(p: seq<byte>, left: int, reach: int)
    requires 0 < left <= reach && p != [] && IsContainer(p[0]) && SeqHeader(p).NoHeader?
    ensures InStep(ExtractItems(p, left), p, left, reach)
  {
    assert ExtractAttr(p) == ExtractSeq(p) == Got(Element(p[0], NoValue, []), 0);
    assert FlatPass(p, reach) == Cut;
  }

  lemma {:induction false} ItemsInStep(p: seq<byte>, left: int, reach: int)
    requires left <= reach
    ensures InStep(ExtractItems(p, left), p, left, reach)
    decreases |p|
  {
    if left <= 0 || p == [] {
      assert p[0..] == p;
    } else if !IsContainer(p[0]) {
      LeafInStep(p, left, reach);
    } else if SeqHeader(p).Header? {
      SequenceInStep(p, left, reach, SeqHeader(p).scanned, SeqHeader(p).size);
    } else {
      HeaderlessInStep(p, left, reach);
    }
  }

  lemma {:induction false} LeafInStep(p: seq<byte>, left: int, reach: int)
    requires 0 < left <= reach && p != [] && !IsContainer(p[0])
    ensures InStep(ExtractItems(p, left), p, left, reach)
    decreases |p|, 0
  {
    hide FlatPass, ExtractItems;
    LeafEntered(p, left, reach);
    if LeafEnd(p).Some? {
      var k := LeafEnd(p).value;
      ItemsInStep(p[k..], left - k, reach - k);
      StepPast(p, left, reach, k, ExtractItems(p, left), ExtractItems(p[k..], left - k));
    }
  }

  lemma LeafEntered(p: seq<byte>, left: int, reach: int)
    requires 0 < left <= reach && p != [] && !IsContainer(p[0])
    ensures match LeafEnd(p)
            case None => InStep(ExtractItems(p, left), p, left, reach)
            case Some(k) =>
              && FlatPass(p, reach) == Further(k, FlatPass(p[k..], reach - k))
              && Longer(ExtractItems(p, left), k, ExtractItems(p[k..], left - k))
  {
    hide LeafEnd;
    LeafEnds(p);
    match LeafEnd(p)
    case None => assert p[0..] == p;
    case Some(k) => ItemsPast(p, left, k);
  }

  lemma {:induction false} SequenceInStep(p: seq<byte>, left: int, reach: int, s: nat, len: int)
    requires 0 < left <= reach && p != [] && IsContainer(p[0]) && SeqHeader(p) == Header(s, len)
    ensures InStep(ExtractItems(p, left), p, left, reach)
    decreases |p|, 0
  {
    hide FlatPass, ExtractItems, SeqHeader, Stuck;
    var inner := if len > reach - s then len else reach - s;
    ItemsInStep(p[s..], len, inner);
    SequenceEntered(p, left, reach, s, len, inner);
    match ExtractItems(p[s..], len)
    case ItemsHang =>
    case Items(_, n) =>
      SequencePast(p, left, s, len, n);
      SequencePassed(p, reach, s, len, inner, n);
      ItemsInStep(p[s + n..], left - (s + n), reach - (s + n));
      StepPast(p, left, reach, s + n, ExtractItems(p, left), ExtractItems(p[s + n..], left - (s + n)));
  }

  /** Both go on behind the header; the loop of the sequence itself may never end. */
  lemma SequenceEntered(p: seq<byte>, left: int, reach: int, s: nat, len: int, inner: int)
    requires 0 < left <= reach && p != [] && IsContainer(p[0]) && SeqHeader(p) == Header(s, len)
    requires inner == if len > reach - s then len else reach - s
    ensures FlatPass(p, reach) == Further(s, FlatPass(p[s..], inner))
    ensures ExtractItems(p[s..], len).ItemsHang? ==> ExtractItems(p, left).ItemsHang?
  {
    hide LeafEnd, Stuck;
    if ExtractItems(p[s..], len).ItemsHang? {
      assert ExtractAttr(p) == ExtractSeq(p) == Hang;
    }
  }

  lemma SequencePast(p: seq<byte>, left: int, s: nat, len: int, n: nat)
    requires left > 0 && p != [] && IsContainer(p[0]) && SeqHeader(p) == Header(s, len)
    requires ExtractItems(p[s..], len).Items? && ExtractItems(p[s..], len).size == n
    ensures s + n <= |p| && Longer(ExtractItems(p, left), s + n, ExtractItems(p[s + n..], left - (s + n)))
  {
    hide SeqHeader;
    assert ExtractAttr(p).Got? && ExtractAttr(p).size == s + n;
    ItemsPast(p, left, s + n);
  }

  /** Behind a sequence its own reach no longer matters. */
  lemma SequencePassed(p: seq<byte>, reach: int, s: nat, len: int, inner: int, n: nat)
    requires reach > 0 && p != [] && IsContainer(p[0]) && SeqHeader(p) == Header(s, len)
    requires inner == if len > reach - s then len else reach - s
    requires InStep(Items([], n), p[s..], len, inner)
    ensures s + n <= |p| && FlatPass(p, reach) == Further(s + n, FlatPass(p[s + n..], reach - (s + n)))
  {
    hide SeqHeader, LeafEnd;
    var q := p[s + n..];
    assert p[s..][n..] == q;
    if Stuck(q) {
      StuckPass(q, inner - n);
      StuckPass(q, reach - (s + n));
    }
  }

  /** What the flat pass makes of one element. */
  datatype Extent = Endless | Nothing | Ends(n: nat)

  function ElementExtent(p: seq<byte>): (r: Extent)
    ensures r.Ends? ==> r.n <= |p|
  {
    if p == [] then Nothing
    else if !IsContainer(p[0]) then
      match LeafEnd(p)
      case None => Nothing
      case Some(k) => Ends(k)
    else
      match SeqHeader(p)
      case NoHeader => Ends(0)
      case Header(s, len) =>
        match FlatPass(p[s..], len)
        case Cut => Endless
        case Through(n) => Ends(s + n)
  }

  /** For every packet: the loop of `extract_seq` never ends if and only if a flat pass over its bytes meets
      a sequence header that is cut short, and otherwise consumes what the pass comes through. */
  lemma ItemsHangIff(p: seq<byte>, left: int)
    ensures ExtractItems(p, left).ItemsHang? <==> FlatPass(p, left).Cut?
    ensures ExtractItems(p, left).Items? ==> FlatPass(p, left) == Through(ExtractItems(p, left).size)
  {
    ItemsInStep(p, left, left);
    var r := ExtractItems(p, left);
    if r.Items? && r.size < left {
      StuckPass(p[r.size..], left - r.size);
    }
  }

  /** For every packet the flat pass tells how the decoder ends: not at all, without an element, or with one
      of this many bytes. */
  lemma HangIff(p: seq<byte>)
    ensures ExtractAttr(p).Hang? <==> ElementExtent(p).Endless?
    ensures ExtractAttr(p).Fail? <==> ElementExtent(p).Nothing?
    ensures ExtractAttr(p).Got? ==> ElementExtent(p) == Ends(ExtractAttr(p).size)
  {
    if p != [] {
      if !IsContainer(p[0]) {
        LeafEnds(p);
      } else if SeqHeader(p).Header? {
        ItemsHangIff(p[SeqHeader(p).scanned..], SeqHeader(p).size);
      }
    }
  }

  /** The packet ends inside the header of a sequence. */
  ghost predicate TruncatedTail(p: seq<byte>) {
    exists i :: 0 <= i < |p| && IsContainer(p[i]) && SeqHeader(p[i..]).NoHeader?
  }

  lemma TailOfTail(p: seq<byte>, k: nat)
    requires k <= |p| && !TruncatedTail(p)
    ensures !TruncatedTail(p[k..])
  {
    forall i | 0 <= i < |p[k..]| && IsContainer(p[k..][i])
      ensures SeqHeader(p[k..][i..]).Header?
    {
      assert p[k..][i..] == p[k + i..];
      assert p[k..][i] == p[k + i];
    }
  }

  /** A pass that is cut meets a header on which the packet ends. */
  lemma {:induction false} CutIsTail(p: seq<byte>, reach: int)
    requires FlatPass(p, reach).Cut?
    ensures TruncatedTail(p)
    decreases |p|
  {
    hide LeafEnd;
    assert p[0..] == p;
    if SeqHeader(p).Header? || !IsContainer(p[0]) {
      var k := if IsContainer(p[0]) then SeqHeader(p).scanned else LeafEnd(p).value;
      var rest := if IsContainer(p[0]) && SeqHeader(p).size > reach - k then SeqHeader(p).size else reach - k;
      CutIsTail(p[k..], rest);
      if !TruncatedTail(p) {
        TailOfTail(p, k);
      }
    }
  }

  /** So the decoder ends on every packet that does not stop inside a sequence header. */
  lemma TerminatesWithoutTruncatedHeader(p: seq<byte>)
    requires !TruncatedTail(p)
    ensures !ExtractAttr(p).Hang?
    ensures ExtractAttr(p).Got? ==> ExtractAttr(p).size > 0
  {
    HangIff(p);
    if p != [] && IsContainer(p[0]) {
      assert p[0..] == p;
      var s := SeqHeader(p).scanned;
      TailOfTail(p, s);
      if FlatPass(p[s..], SeqHeader(p).size).Cut? {
        CutIsTail(p[s..], SeqHeader(p).size);
      }
    }
  }

  /** A sequence of announced length 2 whose only byte is another SEQ8 descriptor. */
  lemma TruncatedHeaderHangs()
    ensures ExtractAttr([SEQ8, 2, SEQ8]) == Hang
  {
    var p: seq<byte> := [SEQ8, 2, SEQ8];
    assert p[1..2] == [2];
    assert FromBE([2]) == 2 by {
      assert [2][..0] == [];
    }
    assert SeqHeader(p) == Header(2, 2);
    assert p[2..] == [SEQ8];
    assert SeqHeader([SEQ8]) == NoHeader;
    assert ExtractAttr([SEQ8]) == Got(Element(SEQ8, NoValue, []), 0);
    assert ExtractItems([SEQ8], 2) == ItemsHang;
  }

  /** And behind any complete members a header that is cut short, while more bytes are announced, keeps the
      loop going forever. */
  lemma TruncatedTailHangs(es: seq<Element>, h: seq<byte>, left: int)
    requires AllSupported(es) && AllLegible(es)
    requires h != [] && IsContainer(h[0]) && SeqHeader(h).NoHeader? && left > |EncodeAll(es)|
    ensures ExtractItems(EncodeAll(es) + h, left) == ItemsHang
  {
    var p, n := EncodeAll(es) + h, |EncodeAll(es)|;
    assert ReachesLast(es, n) by {
      if es != [] {
        EncodeNonEmpty(es[|es| - 1]);
      }
    }
    ItemsRoundTripIff(es, h, n);
    ItemsInStep(p, n, left);
    assert p[n..] == h && FlatPass(h, left - n).Cut?;
    ItemsHangIff(p, left);
  }

  /** The elements already linked in, followed by what the rest of the loop finds. */
  ghost function After(found: seq<Element>, n: nat, r: Items): Items {
    match r
    case ItemsHang => ItemsHang
    case Items(more, m) => Items(found + more, n + m)
  }

  /** Where the loop stands: what is linked in, followed by what the rest of the packet gives, is `whole`. */
  ghost predicate Walking(found: seq<Element>, n: nat, p: seq<byte>, size: int, whole: Items) {
    After(found, n, ExtractItems(p, size - n)) == whole
  }

  lemma WalkingStep(found: seq<Element>, n: nat, p: seq<byte>, size: int, whole: Items, curr: Extracted)
    requires Walking(found, n, p, size, whole) && n < size
    requires curr == ExtractAttr(p) && curr.Got? && curr.size > 0
    ensures Walking(found + [curr.element], n + curr.size, p[curr.size..], size, whole)
  {
    match ExtractItems(p[curr.size..], size - n - curr.size)
    case ItemsHang =>
    case Items(rest, _) => Assoc(found, [curr.element], rest);
  }

  lemma WalkingStops(found: seq<Element>, n: nat, p: seq<byte>, size: int, whole: Items)
    requires Walking(found, n, p, size, whole)
    ensures n >= size || ExtractAttr(p).Fail? ==> whole == Items(found, n)
    ensures n < size && (ExtractAttr(p).Hang? || (ExtractAttr(p).Got? && ExtractAttr(p).size == 0)) ==>
              whole == ItemsHang
  {
  }

  /** The loop of `extract_seq`: links elements one by one while advancing through the packet.  The
      iteration that consumes nothing is the one the C loop repeats forever; here it ends the method. */
  method DecodeItems(start: seq<byte>, size: int) returns (r: Items)
    ensures r == ExtractItems(start, size)
    decreases |start|, 2
  {
    var p := start;
    var found: seq<Element>, n: nat := [], 0;
    ghost var whole := ExtractItems(start, size);
    while n < size
      invariant |p| <= |start|
      invariant Walking(found, n, p, size, whole)
      decreases |p|
    {
      var curr := DecodeAttr(p);
      WalkingStops(found, n, p, size, whole);
      if curr.Hang? || (curr.Got? && curr.size == 0) {
        return ItemsHang;
      }
      if curr.Fail? {
        return Items(found, n);
      }
      WalkingStep(found, n, p, size, whole, curr);
      found, p, n := found + [curr.element], p[curr.size..], n + curr.size;
    }
    WalkingStops(found, n, p, size, whole);
    r := Items(found, n);
  }

  /** `extract_seq`. */
  method DecodeSeq(packet: seq<byte>) returns (r: Extracted)
    requires packet != []
    ensures r == ExtractSeq(packet)
    decreases |packet|, 0
  {
    var header := SeqHeader(packet);
    if header.NoHeader? {
      return Got(Element(packet[0], NoValue, []), 0);
    }
    var found := DecodeItems(packet[header.scanned..], header.size);
    match found
    case ItemsHang => r := Hang;
    case Items(elements, n) => r := Got(Element(packet[0], NoValue, elements), header.scanned + n);
  }

  /** `sdp_extract_attr`: dispatch on the descriptor. */
  method DecodeAttr(packet: seq<byte>) returns (r: Extracted)
    ensures r == ExtractAttr(packet)
    decreases |packet|, 1
  {
    if packet == [] {
      return Fail;
    }
    var dtd := packet[0];
    if dtd == NIL || IsInt(dtd) {
      r := ExtractInt(packet);
    } else if IsUuid(dtd) {
      r := ExtractUuid(packet);
    } else if IsStr(dtd) {
      r := ExtractStr(packet);
    } else if IsContainer(dtd) {
      r := DecodeSeq(packet);
    } else {
      r := Fail;
    }
  }
}
