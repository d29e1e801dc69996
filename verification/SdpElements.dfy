/** SDP data elements: the in-memory tree, its wire image and the descriptor promotion. */
module SdpElements {
  import opened Bytes

  const NIL: byte := 0x00
  const UINT8: byte := 0x08
  const UINT16: byte := 0x09
  const UINT32: byte := 0x0A
  const UINT64: byte := 0x0B
  const UINT128: byte := 0x0C
  const INT8: byte := 0x10
  const INT16: byte := 0x11
  const INT32: byte := 0x12
  const INT64: byte := 0x13
  const INT128: byte := 0x14
  const UUID16: byte := 0x19
  const UUID32: byte := 0x1A
  const UUID128: byte := 0x1C
  const TEXT_STR8: byte := 0x25
  const TEXT_STR16: byte := 0x26
  const TEXT_STR32: byte := 0x27
  const BOOL: byte := 0x28
  const SEQ8: byte := 0x35
  const SEQ16: byte := 0x36
  const SEQ32: byte := 0x37
  const ALT8: byte := 0x3D
  const ALT16: byte := 0x3E
  const ALT32: byte := 0x3F
  const URL_STR8: byte := 0x45
  const URL_STR16: byte := 0x46
  const URL_STR32: byte := 0x47

  /** The UUID of a record: the short forms hold a number, the long form its 16 network-order bytes. */
  datatype Uuid = Short16(n: nat) | Short32(n: nat) | Long(bytes: seq<byte>)

  /** The value union of `sdp_data_t`; integers hold the bit pattern of their width. */
  datatype Value = NoValue | Num(n: nat) | Id(uuid: Uuid) | Text(chars: seq<byte>)

  datatype Element = Element(dtd: byte, val: Value, items: seq<Element>)

  predicate IsInt(dtd: byte) {
    UINT8 <= dtd <= UINT128 || INT8 <= dtd <= INT128 || dtd == BOOL
  }

  predicate IsUuid(dtd: byte) {
    dtd == UUID16 || dtd == UUID32 || dtd == UUID128
  }

  predicate IsStr(dtd: byte) {
    TEXT_STR8 <= dtd <= TEXT_STR32 || URL_STR8 <= dtd <= URL_STR32
  }

  predicate IsContainer(dtd: byte) {
    SEQ8 <= dtd <= SEQ32 || ALT8 <= dtd <= ALT32
  }

  /** Payload bytes of a fixed-size element. */
  function Width(dtd: byte): nat {
    if dtd == UINT8 || dtd == INT8 || dtd == BOOL then 1
    else if dtd == UINT16 || dtd == INT16 || dtd == UUID16 then 2
    else if dtd == UINT32 || dtd == INT32 || dtd == UUID32 then 4
    else if dtd == UINT64 || dtd == INT64 then 8
    else if dtd == UINT128 || dtd == INT128 || dtd == UUID128 then 16
    else 0
  }

  /** Bytes of the length field that follows the descriptor. */
  function LengthBytes(dtd: byte): nat {
    if dtd == SEQ8 || dtd == ALT8 || dtd == TEXT_STR8 || dtd == URL_STR8 then 1
    else if dtd == SEQ16 || dtd == ALT16 || dtd == TEXT_STR16 || dtd == URL_STR16 then 2
    else if dtd == SEQ32 || dtd == ALT32 || dtd == TEXT_STR32 || dtd == URL_STR32 then 4
    else 0
  }

  /** The tables follow the descriptor (section 3.3 of Bluetooth Core 4.0 Vol 3 Part B): its high five bits are the
      type, its low three the size - a power of two up to 4, a length field of 1, 2 or 4 bytes above. */
  lemma DescriptorRule(dtd: byte)
    ensures var kind, index := dtd / 8, dtd % 8;
            && (IsInt(dtd) <==> ((kind == 1 || kind == 2) && index <= 4) || (kind == 5 && index == 0))
            && (IsUuid(dtd) <==> kind == 3 && (index == 1 || index == 2 || index == 4))
            && (IsStr(dtd) <==> (kind == 4 || kind == 8) && index >= 5)
            && (IsContainer(dtd) <==> (kind == 6 || kind == 7) && index >= 5)
            && (IsInt(dtd) || IsUuid(dtd) ==>
                  Width(dtd) == if index == 0 then 1 else if index == 1 then 2 else if index == 2 then 4
                                else if index == 3 then 8 else 16)
            && (IsStr(dtd) || IsContainer(dtd) ==>
                  LengthBytes(dtd) == if index == 5 then 1 else if index == 6 then 2 else 4)
            && NIL == 0 && SEQ8 == 8 * 6 + 5 && SEQ16 == 8 * 6 + 6
  {
  }

  /** `sdp_get_data_type_size`: descriptor byte plus length field. */
  function TypeSize(dtd: byte): nat {
    1 + LengthBytes(dtd)
  }

  /** A descriptor for strings too long to be supported. */
  predicate IsLongStr(dtd: byte) {
    dtd == TEXT_STR32 || dtd == URL_STR32
  }

  /** The value has the shape its descriptor announces.  An element for a 32-bit string is allocated without
      its string. */
  predicate SupportedNode(e: Element) {
    if e.dtd == NIL then e.val == NoValue && e.items == []
    else if IsInt(e.dtd) then e.val.Num? && e.val.n < Radix(Width(e.dtd)) && e.items == []
    else if e.dtd == UUID16 then e.val.Id? && e.val.uuid.Short16? && e.val.uuid.n < Radix(2) && e.items == []
    else if e.dtd == UUID32 then e.val.Id? && e.val.uuid.Short32? && e.val.uuid.n < Radix(4) && e.items == []
    else if e.dtd == UUID128 then e.val.Id? && e.val.uuid.Long? && |e.val.uuid.bytes| == 16 && e.items == []
    else if IsLongStr(e.dtd) then e.val == NoValue && e.items == []
    else if IsStr(e.dtd) then e.val.Text? && e.items == []
    else IsContainer(e.dtd) && e.val == NoValue
  }

  ghost predicate Supported(e: Element) {
    SupportedNode(e) && forall i :: 0 <= i < |e.items| ==> Supported(e.items[i])
  }

  ghost predicate AllSupported(es: seq<Element>) {
    forall i :: 0 <= i < |es| ==> Supported(es[i])
  }

  /** Payload bytes of an element that is not a container. */
  function LeafBytes(e: Element): seq<byte> {
    match e.val
    case NoValue => []
    case Num(n) => BE(n, Width(e.dtd))
    case Text(chars) => chars
    case Id(Short16(n)) => BE(n, 2)
    case Id(Short32(n)) => BE(n, 4)
    case Id(Long(bytes)) => bytes
  }

  /** Single-pass wire image of the tree exactly as its descriptors stand. */
  function Encode(e: Element): (s: seq<byte>)
    decreases e, 1
  {
    var body := Body(e);
    [e.dtd] + BE(|body|, LengthBytes(e.dtd)) + body
  }

  function Body(e: Element): seq<byte>
    decreases e, 0
  {
    if IsContainer(e.dtd) then EncodeAll(e.items) else LeafBytes(e)
  }

  function EncodeAll(es: seq<Element>): seq<byte>
    decreases es, 2
  {
    if es == [] then [] else Encode(es[0]) + EncodeAll(es[1..])
  }

  /** The tree the encoder leaves in memory: a SEQ8 whose payload exceeds one byte becomes SEQ16. */
  function Promote(e: Element): (p: Element)
    decreases e, 1
  {
    if IsContainer(e.dtd) then
      var items := PromoteAll(e.items);
      Element(if e.dtd == SEQ8 && |EncodeAll(items)| > 255 then SEQ16 else e.dtd, e.val, items)
    else
      e
  }

  function PromoteAll(es: seq<Element>): (ps: seq<Element>)
    ensures |ps| == |es|
    ensures forall i :: 0 <= i < |es| ==> ps[i] == Promote(es[i])
    decreases es, 2
  {
    if es == [] then [] else [Promote(es[0])] + PromoteAll(es[1..])
  }

  lemma {:induction false} EncodeAllAppend(xs: seq<Element>, e: Element)
    ensures EncodeAll(xs + [e]) == EncodeAll(xs) + Encode(e)
  {
    hide Encode;
    if xs == [] {
      assert [e][1..] == [];
      assert EncodeAll([e]) == Encode(e);
      assert xs + [e] == [e];
    } else {
      EncodeAllAppend(xs[1..], e);
      assert (xs + [e])[1..] == xs[1..] + [e] && (xs + [e])[0] == xs[0];
      Assoc(Encode(xs[0]), EncodeAll(xs[1..]), Encode(e));
    }
  }

  lemma {:induction false} EncodeAllConcat(xs: seq<Element>, ys: seq<Element>)
    ensures EncodeAll(xs + ys) == EncodeAll(xs) + EncodeAll(ys)
  {
    hide Encode;
    if xs == [] {
      assert xs + ys == ys;
    } else {
      EncodeAllConcat(xs[1..], ys);
      assert (xs + ys)[1..] == xs[1..] + ys && (xs + ys)[0] == xs[0];
      Assoc(Encode(xs[0]), EncodeAll(xs[1..]), EncodeAll(ys));
    }
  }

  /** Taking one more element extends the image by that element's bytes and stays inside the whole. */
  lemma EncodeAllStep(es: seq<Element>, i: nat)
    requires i < |es|
    ensures EncodeAll(es[..i + 1]) == EncodeAll(es[..i]) + Encode(es[i])
    ensures |EncodeAll(es[..i])| + |Encode(es[i])| <= |EncodeAll(es)|
  {
    assert es[..i + 1] == es[..i] + [es[i]];
    EncodeAllAppend(es[..i], es[i]);
    assert es == es[..i + 1] + es[i + 1..];
    EncodeAllConcat(es[..i + 1], es[i + 1..]);
  }

  /** Generating again changes nothing: the promoted tree is a fixed point. */
  lemma {:induction false} PromoteIdempotent(e: Element)
    ensures Promote(Promote(e)) == Promote(e)
  {
    if IsContainer(e.dtd) {
      PromoteAllIdempotent(e.items);
    }
  }

  lemma {:induction false} PromoteAllIdempotent(es: seq<Element>)
    ensures PromoteAll(PromoteAll(es)) == PromoteAll(es)
  {
    forall i | 0 <= i < |es| ensures Promote(Promote(es[i])) == Promote(es[i]) {
      PromoteIdempotent(es[i]);
    }
  }

  /** Promotion changes descriptors only, and only from SEQ8 to SEQ16. */
  ghost predicate OnlyPromoted(e: Element, p: Element) {
    && (p.dtd == e.dtd || (e.dtd == SEQ8 && p.dtd == SEQ16))
    && p.val == e.val
    && |p.items| == |e.items|
    && forall i :: 0 <= i < |e.items| ==> OnlyPromoted(e.items[i], p.items[i])
  }

  lemma {:induction false} UnchangedIsPromoted(e: Element)
    ensures OnlyPromoted(e, e)
  {
    forall i | 0 <= i < |e.items| ensures OnlyPromoted(e.items[i], e.items[i]) {
      UnchangedIsPromoted(e.items[i]);
    }
  }

  lemma {:induction false} PromoteKeepsShape(e: Element)
    ensures OnlyPromoted(e, Promote(e))
    ensures Supported(e) ==> Supported(Promote(e))
  {
    if IsContainer(e.dtd) {
      forall i | 0 <= i < |e.items|
        ensures OnlyPromoted(e.items[i], Promote(e).items[i])
        ensures Supported(e.items[i]) ==> Supported(Promote(e).items[i])
      {
        PromoteKeepsShape(e.items[i]);
      }
    } else {
      UnchangedIsPromoted(e);
    }
  }

  /** No sequence with a one-byte length has outgrown it. */
  ghost predicate ShortsFit(e: Element) {
    && (e.dtd == SEQ8 ==> |Body(e)| <= 255)
    && (IsContainer(e.dtd) ==> forall i :: 0 <= i < |e.items| ==> ShortsFit(e.items[i]))
  }

  /** The encoder leaves a tree as it is if and only if no sequence in it has outgrown a one-byte length;
      what it leaves behind is always such a tree. */
  lemma {:induction false} PromoteUnchangedIff(e: Element)
    ensures Promote(e) == e <==> ShortsFit(e)
    ensures ShortsFit(Promote(e))
  {
    UnchangedIff(e);
    PromoteIdempotent(e);
    UnchangedIff(Promote(e));
  }

  lemma {:induction false} UnchangedIff(e: Element)
    ensures Promote(e) == e <==> ShortsFit(e)
  {
    if IsContainer(e.dtd) {
      forall i | 0 <= i < |e.items| ensures Promote(e.items[i]) == e.items[i] <==> ShortsFit(e.items[i]) {
        UnchangedIff(e.items[i]);
      }
      var ps := PromoteAll(e.items);
      assert (forall i :: 0 <= i < |ps| ==> ps[i] == e.items[i]) <==> ps == e.items;
    }
  }
}
