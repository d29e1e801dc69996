/** A whole service record on the wire: generation, extraction and their round trip. */
module SdpRecordPdu {
  import opened Bytes
  import opened SdpElements
  import opened SdpDecoder
  import opened SdpEncoder
  import opened SdpSize
  import opened SdpFraming
  import opened SdpList
  import opened SdpRecord

  function AttrBytes(a: Attribute<Element>): seq<byte> {
    [UINT16] + BE(a.id, 2) + Encode(a.data)
  }

  function RecordBytes(attrs: seq<Attribute<Element>>): seq<byte> {
    if attrs == [] then [] else AttrBytes(attrs[0]) + RecordBytes(attrs[1..])
  }

  lemma {:induction false} RecordBytesConcat(xs: seq<Attribute<Element>>, ys: seq<Attribute<Element>>)
    ensures RecordBytes(xs + ys) == RecordBytes(xs) + RecordBytes(ys)
  {
    if xs == [] {
      assert xs + ys == ys;
    } else {
      RecordBytesConcat(xs[1..], ys);
      assert (xs + ys)[1..] == xs[1..] + ys && (xs + ys)[0] == xs[0];
    }
  }

  lemma RecordBytesStep(attrs: seq<Attribute<Element>>, i: nat)
    requires i < |attrs|
    ensures RecordBytes(attrs[..i + 1]) == RecordBytes(attrs[..i]) + AttrBytes(attrs[i])
    ensures |RecordBytes(attrs[..i + 1])| <= |RecordBytes(attrs)|
  {
    assert attrs[..i + 1] == attrs[..i] + [attrs[i]];
    RecordBytesConcat(attrs[..i], [attrs[i]]);
    assert RecordBytes([attrs[i]]) == AttrBytes(attrs[i]) + RecordBytes([]);
    assert attrs == attrs[..i + 1] + attrs[i + 1..];
    RecordBytesConcat(attrs[..i + 1], attrs[i + 1..]);
  }

  /** `sdp_append_to_pdu`: the element goes through a buffer of its own whose estimated size is
      always enough, so no write leaves it and the copy guard never refuses. */
  method AppendToPdu(pdu: SdpBuf, id: nat, d: DataNode, late: bool, ghost payload: seq<byte>)
    requires Frames(pdu, payload) && d.Valid() && Supported(d.Tree())
    requires |Framed(payload + AttrBytes(Attribute(id, Promote(d.Tree()))))| <= pdu.bufSize
    modifies pdu`dataSize, pdu.data, d.repr
    ensures d.Tree() == Promote(old(d.Tree()))
    ensures Frames(pdu, payload + AttrBytes(Attribute(id, d.Tree())))
    ensures pdu.Contents() == Framed(payload + AttrBytes(Attribute(id, d.Tree())))
  {
    hide Framed, Frames, Promote, Encode, GenBufferSize;
    var append := new SdpBuf.Empty();
    ghost var e := d.Tree();
    EstimateCoversImage(late, 0, e);
    var _ := GenBuffer(append, d, late);
    append.Allocate();
    SetAttrId(append, id);
    assert d.Tree() == e;
    var _ := GenPdu(append, d);
    assert append.Contents() == AttrBytes(Attribute(id, Promote(e)));
    AppendToBuf(pdu, append.data[..append.dataSize], payload);
  }

  /** `sdp_set_attrid`. */
  method SetAttrId(buf: SdpBuf, id: nat)
    requires buf.Ready() && buf.bufSize >= 3
    modifies buf`dataSize, buf.data
    ensures buf.Ready() && buf.Contents() == [UINT16] + BE(id, 2)
  {
    buf.data[0] := UINT16;
    buf.dataSize := 1;
    Store(buf.data, 1, BE(id, 2));
    buf.dataSize := buf.dataSize + 2;
  }

  ghost predicate ValidAttrs(attrs: seq<Attribute<DataNode>>) {
    && (forall a <- attrs :: a.data.Valid())
    && forall i, j :: 0 <= i < j < |attrs| ==> attrs[i].data.repr !! attrs[j].data.repr
  }

  ghost function Repr(attrs: seq<Attribute<DataNode>>): set<DataNode> {
    set a, o | a in attrs && o in a.data.repr :: o
  }

  /** The attributes the nodes stand for. */
  ghost function Entries(attrs: seq<Attribute<DataNode>>): (es: seq<Attribute<Element>>)
    requires ValidAttrs(attrs)
    reads Repr(attrs)
    ensures |es| == |attrs|
  {
    seq(|attrs|, i requires 0 <= i < |attrs| reads Repr(attrs) => Attribute(attrs[i].id, attrs[i].data.Tree()))
  }

  function Datas(attrs: seq<Attribute<Element>>): (es: seq<Element>)
    ensures |es| == |attrs|
  {
    seq(|attrs|, i requires 0 <= i < |attrs| => attrs[i].data)
  }

  /** The record as the encoder leaves it: every element promoted. */
  function PromotedAttrs(attrs: seq<Attribute<Element>>): (ps: seq<Attribute<Element>>)
    ensures |ps| == |attrs|
  {
    seq(|attrs|, i requires 0 <= i < |attrs| => attrs[i].(data := Promote(attrs[i].data)))
  }

  ghost predicate SupportedAttrs(attrs: seq<Attribute<Element>>) {
    forall a <- attrs :: Supported(a.data)
  }

  ghost predicate SomeMember(attrs: seq<Attribute<Element>>) {
    exists a <- attrs :: a.data.items != []
  }

  /** Some attribute has a member, or the others leave enough to spare for the header. */
  ghost predicate HasRoom(attrs: seq<Attribute<Element>>) {
    SomeMember(attrs) || Spare(0, Datas(attrs)) >= HeaderSize(RecordBytes(PromotedAttrs(attrs)))
  }

  /** The storage computed for a record holds all its attributes, and three bytes more as soon as one of
      them is a container with a member. */
  lemma {:induction false} RecordEstimate(late: bool, start: nat, attrs: seq<Attribute<Element>>)
    requires SupportedAttrs(attrs)
    ensures var size := GenBufferSizes(late, start, Datas(attrs));
            && size >= start + |RecordBytes(PromotedAttrs(attrs))|
            && (SomeMember(attrs) ==> size >= start + 3 + |RecordBytes(PromotedAttrs(attrs))|)
    decreases attrs
  {
    hide Promote, Encode, BE, GenBufferSize;
    if attrs != [] {
      var e := attrs[0].data;
      var next := GenBufferSize(late, start, e);
      EstimateCoversImage(late, start, e);
      RecordEstimate(late, next, attrs[1..]);
      assert Datas(attrs) == [e] + Datas(attrs[1..]);
      assert attrs == [attrs[0]] + attrs[1..];
      assert PromotedAttrs(attrs)[1..] == PromotedAttrs(attrs[1..]);
    }
  }

  /** Without members it holds the attributes and what they have to spare, to the byte. */
  lemma {:induction false} MemberlessRecord(late: bool, start: nat, attrs: seq<Attribute<Element>>)
    requires SupportedAttrs(attrs) && !SomeMember(attrs)
    ensures GenBufferSizes(late, start, Datas(attrs)) ==
            start + |RecordBytes(PromotedAttrs(attrs))| + Spare(start, Datas(attrs))
    decreases attrs
  {
    hide Promote, Encode, BE, GenBufferSize, SpareOf;
    if attrs != [] {
      var e := attrs[0].data;
      assert attrs[0] in attrs;
      MemberlessEstimate(late, start, e);
      MemberlessRecord(late, GenBufferSize(late, start, e), attrs[1..]);
      assert Datas(attrs)[1..] == Datas(attrs[1..]);
      assert PromotedAttrs(attrs)[1..] == PromotedAttrs(attrs[1..]);
    }
  }

  /** For every record: the storage computed for it has room for its own header too if and only if some
      attribute has a member, or the others have enough to spare. */
  lemma RecordRoomIff(late: bool, attrs: seq<Attribute<Element>>)
    requires SupportedAttrs(attrs)
    ensures GenBufferSizes(late, 0, Datas(attrs)) >= |Framed(RecordBytes(PromotedAttrs(attrs)))| <==> HasRoom(attrs)
  {
    RecordEstimate(late, 0, attrs);
    if !SomeMember(attrs) {
      MemberlessRecord(late, 0, attrs);
    }
  }

  lemma {:induction false} NothingSpare(start: nat, es: seq<Element>)
    requires forall e <- es :: !IsContainer(e.dtd)
    requires start > 0
    ensures Spare(start, es) == 0
    decreases |es|
  {
    if es != [] {
      NothingSpare(start + 3 + |Encode(es[0])|, es[1..]);
    }
  }

  /** A record of leaves has room for its header only if it starts with a NIL and its length fits one byte. */
  lemma FlatRecordEstimate(late: bool, attrs: seq<Attribute<Element>>)
    requires forall a <- attrs :: Supported(a.data) && !IsContainer(a.data.dtd)
    ensures var payload, nil := RecordBytes(PromotedAttrs(attrs)), attrs != [] && attrs[0].data.dtd == NIL;
            && GenBufferSizes(late, 0, Datas(attrs)) == |payload| + (if nil then 2 else 0)
            && (GenBufferSizes(late, 0, Datas(attrs)) >= |Framed(payload)| <==> nil && |payload| <= 253)
  {
    assert !SomeMember(attrs);
    MemberlessRecord(late, 0, attrs);
    if attrs != [] {
      var es := Datas(attrs);
      assert es[0] == attrs[0].data;
      NothingSpare(3 + |Encode(es[0])| + SpareOf(0, es[0]), es[1..]);
    }
  }

  method Zero(a: array<byte>)
    modifies a
    ensures forall i :: 0 <= i < a.Length ==> a[i] == 0
  {
    forall i | 0 <= i < a.Length {
      a[i] := 0;
    }
  }

  lemma FramedGrows(a: seq<byte>, b: seq<byte>)
    requires |a| <= |b|
    ensures |Framed(a)| <= |Framed(b)|
  {
  }

  lemma FramesReady(buf: SdpBuf, payload: seq<byte>)
    requires Frames(buf, payload)
    ensures buf.Ready()
  {
  }

  lemma FramesNothing(buf: SdpBuf, ps: seq<Attribute<Element>>)
    requires buf.Ready() && buf.dataSize == 0 && buf.bufSize > 0 && buf.data[0] == 0
    ensures Frames(buf, RecordBytes(ps[..0]))
  {
  }

  /** The first `i` attributes have been promoted, the others are as they were. */
  ghost predicate HalfPromoted(attrs: seq<Attribute<DataNode>>, es: seq<Attribute<Element>>, i: nat)
    requires ValidAttrs(attrs)
    reads Repr(attrs)
  {
    && |es| == |attrs|
    && forall j :: 0 <= j < |attrs| ==>
         attrs[j].id == es[j].id && attrs[j].data.Tree() == if j < i then Promote(es[j].data) else es[j].data
  }

  lemma HalfPromotedEnds(attrs: seq<Attribute<DataNode>>, es: seq<Attribute<Element>>)
    requires ValidAttrs(attrs)
    ensures es == Entries(attrs) ==> HalfPromoted(attrs, es, 0)
    ensures HalfPromoted(attrs, es, |attrs|) ==> Entries(attrs) == PromotedAttrs(es)
  {
    hide Promote;
  }

  /** The append pass of `sdp_gen_record_pdu`. */
  method AppendAttrs(attrs: seq<Attribute<DataNode>>, buf: SdpBuf, late: bool, ghost es: seq<Attribute<Element>>)
    requires ValidAttrs(attrs) && es == Entries(attrs) && SupportedAttrs(es)
    requires buf.Ready() && buf.dataSize == 0
    requires attrs != [] ==> buf.bufSize > 0 && buf.data[0] == 0
    requires attrs != [] ==> |Framed(RecordBytes(PromotedAttrs(es)))| <= buf.bufSize
    modifies buf`dataSize, buf.data, Repr(attrs)
    ensures buf.Ready()
    ensures Entries(attrs) == PromotedAttrs(es)
    ensures buf.Contents() == if attrs == [] then [] else Framed(RecordBytes(Entries(attrs)))
  {
    hide Framed, RecordBytes, Frames, HalfPromoted, Supported;
    ghost var ps := PromotedAttrs(es);
    HalfPromotedEnds(attrs, es);
    if attrs != [] {
      FramesNothing(buf, ps);
    }
    for i := 0 to |attrs|
      invariant buf.Ready() && HalfPromoted(attrs, es, i)
      invariant attrs != [] ==> Frames(buf, RecordBytes(ps[..i]))
      invariant if i == 0 then buf.dataSize == 0 else buf.Contents() == Framed(RecordBytes(ps[..i]))
    {
      assert es[i] in es;
      RecordBytesStep(ps, i);
      FramedGrows(RecordBytes(ps[..i + 1]), RecordBytes(ps));
      AppendOne(attrs, buf, late, i, es);
    }
    HalfPromotedEnds(attrs, es);
    assert ps[..|ps|] == ps;
  }

  /** One call of `sdp_attr_pdu`: the other attributes keep their trees. */
  method AppendOne(attrs: seq<Attribute<DataNode>>, buf: SdpBuf, late: bool, i: nat,
                   ghost es: seq<Attribute<Element>>)
    requires ValidAttrs(attrs) && HalfPromoted(attrs, es, i) && i < |attrs| && Supported(es[i].data)
    requires Frames(buf, RecordBytes(PromotedAttrs(es)[..i]))
    requires |Framed(RecordBytes(PromotedAttrs(es)[..i + 1]))| <= buf.bufSize
    modifies buf`dataSize, buf.data, Repr(attrs)
    ensures buf.Ready() && HalfPromoted(attrs, es, i + 1)
    ensures Frames(buf, RecordBytes(PromotedAttrs(es)[..i + 1]))
    ensures buf.Contents() == Framed(RecordBytes(PromotedAttrs(es)[..i + 1]))
  {
    hide Framed, RecordBytes, Promote, Supported, Frames, AttrBytes;
    assert forall j :: 0 <= j < |attrs| && j != i ==> attrs[i].data.repr !! attrs[j].data.repr;
    RecordBytesStep(PromotedAttrs(es), i);
    AppendToPdu(buf, attrs[i].id, attrs[i].data, late, RecordBytes(PromotedAttrs(es)[..i]));
    FramesReady(buf, RecordBytes(PromotedAttrs(es)[..i + 1]));
  }

  /** The size pass of `sdp_gen_record_pdu`. */
  method RecordSize(attrs: seq<Attribute<DataNode>>, buf: SdpBuf, late: bool)
    requires ValidAttrs(attrs) && buf.data == null && buf.bufSize == 0
    modifies buf`bufSize
    ensures buf.bufSize == GenBufferSizes(late, 0, Datas(Entries(attrs)))
  {
    ghost var es := Datas(Entries(attrs));
    for i := 0 to |attrs|
      invariant buf.bufSize == GenBufferSizes(late, 0, es[..i])
    {
      GenBufferSizesAppend(late, 0, es[..i], es[i]);
      assert es[..i + 1] == es[..i] + [es[i]];
      var _ := GenBuffer(buf, attrs[i].data, late);
    }
    assert es[..|es|] == es && Datas(Entries(attrs)) == es;
  }

  /** `sdp_gen_record_pdu`.  The estimate counts the attributes but not the header of the record; whether it is
      enough is left to the caller. */
  method GenRecordPdu(attrs: seq<Attribute<DataNode>>, late: bool) returns (buf: SdpBuf)
    requires ValidAttrs(attrs) && SupportedAttrs(Entries(attrs)) && (attrs != [] ==> HasRoom(Entries(attrs)))
    modifies Repr(attrs)
    ensures buf.Ready()
    ensures Entries(attrs) == PromotedAttrs(old(Entries(attrs)))
    ensures buf.Contents() == if attrs == [] then [] else Framed(RecordBytes(Entries(attrs)))
  {
    hide RecordBytes, GenBufferSizes, Promote, Supported, HasRoom, Framed;
    buf := new SdpBuf.Empty();
    ghost var es := Entries(attrs);
    RecordRoomIff(late, es);
    RecordSize(attrs, buf, late);
    assert attrs != [] ==> buf.bufSize > 0 by { FramedNonEmpty(RecordBytes(PromotedAttrs(es))); }
    buf.Allocate();
    buf.dataSize := 0;
    Zero(buf.data);
    AppendAttrs(attrs, buf, late, es);
  }

  lemma FramedNonEmpty(payload: seq<byte>)
    ensures |Framed(payload)| > 0
  {
  }

  datatype AttrScan = ScanHang | Scan(attrs: seq<Attribute<Element>>)

  /** The loop of `sdp_extract_pdu`; the descriptor in front of an attribute id is not looked at. */
  function ScanAttrs(p: seq<byte>, left: int): AttrScan
    decreases |p|
  {
    if left <= 0 || |p| < 3 then Scan([])
    else
      match ExtractAttr(p[3..])
      case Hang => ScanHang
      case Fail => Scan([])
      case Got(e, k) =>
        match ScanAttrs(p[3 + k..], left - 3 - k)
        case ScanHang => ScanHang
        case Scan(rest) => Scan([Attribute(FromBE(p[1..3]), e)] + rest)
  }

  function ScanRecord(p: seq<byte>): AttrScan {
    if p == [] then Scan([])
    else
      match SeqHeader(p)
      case NoHeader => Scan([])
      case Header(scanned, size) => ScanAttrs(p[scanned..], size)
  }

  /** The flat pass along the attributes of a record, three bytes in front of each element: it meets a
      sequence header that is cut short inside one of them. */
  predicate RecordCut(p: seq<byte>, left: int)
    decreases |p|
  {
    && left > 0 && |p| >= 3
    && match ElementExtent(p[3..])
       case Endless => true
       case Nothing => false
       case Ends(k) => RecordCut(p[3 + k..], left - 3 - k)
  }

  lemma {:induction false} ScanHangsIff(p: seq<byte>, left: int)
    ensures ScanAttrs(p, left).ScanHang? <==> RecordCut(p, left)
    decreases |p|
  {
    hide ExtractAttr, ElementExtent;
    if left > 0 && |p| >= 3 {
      HangIff(p[3..]);
      match ExtractAttr(p[3..])
      case Got(_, k) => ScanHangsIff(p[3 + k..], left - 3 - k);
      case _ =>
    }
  }

  /** For every packet: extracting a record never ends if and only if the flat pass says so. */
  lemma RecordHangsIff(p: seq<byte>)
    ensures ScanRecord(p).ScanHang? <==>
            p != [] && SeqHeader(p).Header? && RecordCut(p[SeqHeader(p).scanned..], SeqHeader(p).size)
  {
    if p != [] && SeqHeader(p).Header? {
      ScanHangsIff(p[SeqHeader(p).scanned..], SeqHeader(p).size);
    }
  }

  /** `*scanned`: what the header announces, whether or not the packet holds it. */
  function Scanned(p: seq<byte>): int {
    if p == [] then 0
    else
      match SeqHeader(p)
      case NoHeader => 0
      case Header(scanned, size) => scanned + size
  }

  /** Entering attributes one after the other, each replacing an earlier one of its id. */
  function ReplaceAll(m: map<nat, Element>, attrs: seq<Attribute<Element>>): map<nat, Element>
    decreases attrs
  {
    if attrs == [] then m else ReplaceAll(m[attrs[0].id := attrs[0].data], attrs[1..])
  }

  /** Every id fits its two bytes, and the lengths tell the elements apart. */
  ghost predicate Encodable(attrs: seq<Attribute<Element>>) {
    forall a <- attrs :: a.id < 0x1_0000 && Legible(a.data)
  }

  /** The announced length reaches into the last attribute. */
  ghost predicate ReachesLastAttr(attrs: seq<Attribute<Element>>, len: int) {
    attrs == [] || len > |RecordBytes(attrs)| - |AttrBytes(attrs[|attrs| - 1])|
  }

  lemma CutAttr(a: Attribute<Element>, rest: seq<byte>)
    ensures var p := AttrBytes(a) + rest;
            && |AttrBytes(a)| == 3 + |Encode(a.data)|
            && FromBE(p[1..3]) == a.id % 0x1_0000
            && p[3..] == Encode(a.data) + rest
            && p[3 + |Encode(a.data)|..] == rest
  {
    hide BE, FromBE, Encode;
    Split3(UINT16, BE(a.id, 2), Encode(a.data), rest);
    RadixValues();
    BETruncates(a.id, 2);
  }

  lemma ScanOne(a: Attribute<Element>, rest: seq<byte>, len: int)
    requires Supported(a.data) && len > 0
    ensures var r := ScanAttrs(AttrBytes(a) + rest, len);
            var next := ScanAttrs(rest, len - |AttrBytes(a)|);
            if a.id < 0x1_0000 && Legible(a.data) then
              r == if next.ScanHang? then ScanHang else Scan([a] + next.attrs)
            else
              r.Scan? ==> r.attrs == [] || r.attrs[0] != a
  {
    hide AttrBytes, ExtractAttr, Encode, Legible;
    CutAttr(a, rest);
    RoundTripIff(a.data, rest);
  }

  lemma FirstReachesAttr(attrs: seq<Attribute<Element>>, len: int)
    requires attrs != []
    ensures RecordBytes(attrs) == AttrBytes(attrs[0]) + RecordBytes(attrs[1..]) && |AttrBytes(attrs[0])| > 0
    ensures ReachesLastAttr(attrs, len) <==> len > 0 && ReachesLastAttr(attrs[1..], len - |AttrBytes(attrs[0])|)
    ensures Encodable(attrs) <==> attrs[0].id < 0x1_0000 && Legible(attrs[0].data) && Encodable(attrs[1..])
  {
    hide Encode, Legible;
    assert attrs == [attrs[0]] + attrs[1..];
    if |attrs| > 1 {
      assert attrs[1..][|attrs| - 2] == attrs[|attrs| - 1];
      RecordBytesStep(attrs[1..], |attrs| - 2);
      assert attrs[1..][..|attrs| - 1] == attrs[1..];
    }
  }

  /** Scanning generated attributes, whatever follows them, gives them back if and only if they can be told apart
      and the length announced for them reaches into the last. */
  lemma {:induction false} ScanRoundTripIff(attrs: seq<Attribute<Element>>, s: seq<byte>, len: int)
    requires SupportedAttrs(attrs) && len <= |RecordBytes(attrs)|
    ensures ScanAttrs(RecordBytes(attrs) + s, len) == Scan(attrs) <==> Encodable(attrs) && ReachesLastAttr(attrs, len)
  {
    hide AttrBytes, Legible, RecordBytes, ReachesLastAttr, Encodable, ScanAttrs;
    if attrs == [] {
      ScanNothing(s, len);
    } else {
      FirstReachesAttr(attrs, len);
      var rest := RecordBytes(attrs[1..]) + s;
      assert RecordBytes(attrs) + s == AttrBytes(attrs[0]) + rest;
      if len <= 0 {
        ScanEnds(RecordBytes(attrs) + s, len);
      } else {
        ScanOne(attrs[0], rest, len);
        ScanRoundTripIff(attrs[1..], s, len - |AttrBytes(attrs[0])|);
        assert [attrs[0]] + attrs[1..] == attrs;
      }
    }
  }

  lemma ScanEnds(p: seq<byte>, len: int)
    requires len <= 0
    ensures ScanAttrs(p, len) == Scan([])
  {
  }

  lemma ScanNothing(s: seq<byte>, len: int)
    requires len <= |RecordBytes([])|
    ensures ScanAttrs(RecordBytes([]) + s, len) == Scan([]) && Encodable([]) && ReachesLastAttr([], len)
  {
  }

  /** The header in front of a payload announces it in full if and only if it has at most 65535 bytes, and
      otherwise its low 16 bits. */
  lemma FramedAnnouncesIff(payload: seq<byte>, s: seq<byte>)
    ensures SeqHeader(Framed(payload) + s) == Header(HeaderSize(payload), |payload| % 0x1_0000)
    ensures SeqHeader(Framed(payload) + s) == Header(HeaderSize(payload), |payload|) <==> |payload| <= 0xffff
    ensures (Framed(payload) + s)[HeaderSize(payload)..] == payload + s
  {
    hide BE, SeqHeader;
    SeqHeaderOf(if |payload| <= 253 then SEQ8 else SEQ16, payload, s);
  }

  /** A framed record, whatever follows it, gives its attributes back if and only if they can be told apart and
      the 16 bits that are kept of its length reach into the last of them. */
  lemma RecordRoundTripIff(attrs: seq<Attribute<Element>>, s: seq<byte>)
    requires SupportedAttrs(attrs)
    ensures ScanRecord(Framed(RecordBytes(attrs)) + s) == Scan(attrs) <==>
            Encodable(attrs) && ReachesLastAttr(attrs, |RecordBytes(attrs)| % 0x1_0000)
  {
    hide RecordBytes, Framed, SeqHeader, ScanAttrs, Encodable, ReachesLastAttr;
    var packet := Framed(RecordBytes(attrs)) + s;
    FramedAnnouncesIff(RecordBytes(attrs), s);
    FramedNonEmpty(RecordBytes(attrs));
    ScanRoundTripIff(attrs, s, |RecordBytes(attrs)| % 0x1_0000);
  }

  /** So one of at most 65535 payload bytes does, and is scanned to its end. */
  lemma RecordRoundTrip(attrs: seq<Attribute<Element>>, s: seq<byte>)
    requires SupportedAttrs(attrs) && Encodable(attrs) && |RecordBytes(attrs)| <= 0xffff
    ensures ScanRecord(Framed(RecordBytes(attrs)) + s) == Scan(attrs)
    ensures Scanned(Framed(RecordBytes(attrs)) + s) == |Framed(RecordBytes(attrs))|
  {
    hide SeqHeader, Encodable, ScanRecord;
    FramedAnnouncesIff(RecordBytes(attrs), s);
    RecordRoundTripIff(attrs, s);
    assert ReachesLastAttr(attrs, |RecordBytes(attrs)|);
  }

  /** The attributes as data elements: each id as a 16-bit unsigned integer (0x09) in front of its value. */
  function Flattened(attrs: seq<Attribute<Element>>): seq<Element> {
    if attrs == [] then [] else [Element(0x09, Num(attrs[0].id), []), attrs[0].data] + Flattened(attrs[1..])
  }

  lemma TwoAndRest(a: Element, b: Element, rest: seq<Element>)
    ensures EncodeAll([a, b] + rest) == Encode(a) + Encode(b) + EncodeAll(rest)
  {
    hide Encode;
    assert ([a, b] + rest)[1..] == [b] + rest && ([b] + rest)[1..] == rest;
    Assoc(Encode(a), Encode(b), EncodeAll(rest));
  }

  lemma IdEncoded(id: nat)
    ensures Encode(Element(0x09, Num(id), [])) == [UINT16] + BE(id, 2)
  {
  }

  /** A record is itself a data element: its bytes are those of a sequence of ids and values. */
  lemma {:induction false} RecordIsSequence(attrs: seq<Attribute<Element>>)
    ensures RecordBytes(attrs) == EncodeAll(Flattened(attrs))
    ensures Framed(RecordBytes(attrs)) ==
            Encode(Element(if |RecordBytes(attrs)| <= 253 then 0x35 else 0x36, NoValue, Flattened(attrs)))
  {
    hide Encode;
    RecordFlattens(attrs);
    var e := Element(if |RecordBytes(attrs)| <= 253 then 0x35 else 0x36, NoValue, Flattened(attrs));
    SequenceEncoded(e);
  }

  lemma SequenceEncoded(e: Element)
    requires e.dtd == 0x35 || e.dtd == 0x36
    ensures Encode(e) == [e.dtd] + BE(|EncodeAll(e.items)|, if e.dtd == 0x35 then 1 else 2) + EncodeAll(e.items)
  {
  }

  lemma {:induction false} RecordFlattens(attrs: seq<Attribute<Element>>)
    ensures RecordBytes(attrs) == EncodeAll(Flattened(attrs))
  {
    hide Encode;
    if attrs != [] {
      RecordFlattens(attrs[1..]);
      IdEncoded(attrs[0].id);
      TwoAndRest(Element(0x09, Num(attrs[0].id), []), attrs[0].data, Flattened(attrs[1..]));
    }
  }

  /** So a decoder that knows nothing of records reads it as the sequence of its ids and values. */
  lemma RecordDecodes(attrs: seq<Attribute<Element>>, s: seq<byte>)
    requires SupportedAttrs(attrs) && Encodable(attrs) && |RecordBytes(attrs)| <= 0xffff
    ensures var r := ExtractAttr(Framed(RecordBytes(attrs)) + s);
            && r.Got? && r.size == |Framed(RecordBytes(attrs))| && r.element.items == Flattened(attrs)
            && IsContainer(r.element.dtd)
  {
    hide Framed, RecordBytes, Encode, EncodeAll, Legible, Supported, Flattened, ExtractAttr;
    var e := Element(if |RecordBytes(attrs)| <= 253 then 0x35 else 0x36, NoValue, Flattened(attrs));
    RecordIsSequence(attrs);
    FlattenedLegible(attrs);
    SequenceLegible(e);
    RoundTrip(e, s);
  }

  lemma SequenceLegible(e: Element)
    requires AllSupported(e.items) && AllLegible(e.items) && e.val == NoValue
    requires (e.dtd == 0x35 && |EncodeAll(e.items)| <= 255) || (e.dtd == 0x36 && |EncodeAll(e.items)| <= 0xffff)
    ensures Supported(e) && Legible(e)
  {
    hide Announced, EncodeAll;
    FittingLength(e.dtd, |Body(e)|);
    if e.items != [] {
      EncodeNonEmpty(e.items[|e.items| - 1]);
    }
  }

  lemma {:induction false} FlattenedLegible(attrs: seq<Attribute<Element>>)
    requires SupportedAttrs(attrs) && Encodable(attrs)
    ensures AllSupported(Flattened(attrs)) && AllLegible(Flattened(attrs))
  {
    if attrs != [] {
      assert attrs[0] in attrs && forall a <- attrs[1..] :: a in attrs;
      FlattenedLegible(attrs[1..]);
      IdLegible(attrs[0].id);
    }
  }

  lemma IdLegible(id: nat)
    requires id < 0x1_0000
    ensures Supported(Element(0x09, Num(id), [])) && Legible(Element(0x09, Num(id), []))
  {
    RadixValues();
  }

  lemma {:induction false} ReplaceAllDistinct(m: map<nat, Element>, attrs: seq<Attribute<Element>>)
    requires SortedById(attrs)
    ensures ReplaceAll(m, attrs) == m + AsMap(attrs)
    decreases attrs
  {
    if attrs != [] {
      var a := attrs[0];
      ReplaceAllDistinct(m[a.id := a.data], attrs[1..]);
      assert forall i :: 0 <= i < |attrs[1..]| ==> AttrKey(attrs[0]) < AttrKey(attrs[1..][i]);
      AsMapOneMore(attrs[1..], 0, a);
    }
  }

  /** Extracting what was generated rebuilds the same attribute map. */
  lemma RecordMapRoundTrip(attrs: seq<Attribute<Element>>, s: seq<byte>)
    requires SupportedAttrs(attrs) && Encodable(attrs) && SortedById(attrs) && |RecordBytes(attrs)| <= 0xffff
    ensures ScanRecord(Framed(RecordBytes(attrs)) + s) == Scan(attrs)
    ensures ReplaceAll(map[], attrs) == AsMap(attrs)
  {
    RecordRoundTrip(attrs, s);
    ReplaceAllDistinct(map[], attrs);
  }

  /** What a client extracts from a generated record is the map the server generated it from, every element
      as the encoder promoted it. */
  lemma GeneratedMapReturns(attrs: seq<Attribute<Element>>, s: seq<byte>)
    requires SupportedAttrs(attrs) && SortedById(attrs) && Encodable(PromotedAttrs(attrs))
    requires |RecordBytes(PromotedAttrs(attrs))| <= 0xffff
    ensures var packet := Framed(RecordBytes(PromotedAttrs(attrs))) + s;
            && ScanRecord(packet).Scan?
            && ReplaceAll(map[], ScanRecord(packet).attrs) == map id <- AsMap(attrs) :: Promote(AsMap(attrs)[id])
  {
    var ps := PromotedAttrs(attrs);
    assert SortedById(ps) by {
      assert forall i :: 0 <= i < |ps| ==> AttrKey(ps[i]) == AttrKey(attrs[i]);
    }
    PromotedSupported(attrs);
    RecordMapRoundTrip(ps, s);
    PromotedMap(attrs);
  }

  lemma PromotedSupported(attrs: seq<Attribute<Element>>)
    requires SupportedAttrs(attrs)
    ensures SupportedAttrs(PromotedAttrs(attrs))
  {
    forall i | 0 <= i < |attrs| ensures Supported(Promote(attrs[i].data)) {
      assert attrs[i] in attrs;
      PromoteKeepsShape(attrs[i].data);
    }
  }

  lemma {:induction false} PromotedMap(attrs: seq<Attribute<Element>>)
    ensures AsMap(PromotedAttrs(attrs)) == map id <- AsMap(attrs) :: Promote(AsMap(attrs)[id])
  {
    if attrs != [] {
      PromotedMap(attrs[1..]);
      assert PromotedAttrs(attrs)[1..] == PromotedAttrs(attrs[1..]);
    }
  }

  lemma {:induction false} ReplaceAllAppend(m: map<nat, Element>, xs: seq<Attribute<Element>>, a: Attribute<Element>)
    ensures ReplaceAll(m, xs + [a]) == ReplaceAll(m, xs)[a.id := a.data]
    decreases |xs|
  {
    if xs == [] {
      assert xs + [a] == [a] && [a][1..] == [];
    } else {
      ReplaceAllAppend(m[xs[0].id := xs[0].data], xs[1..], a);
      assert (xs + [a])[1..] == xs[1..] + [a] && (xs + [a])[0] == xs[0];
    }
  }

  /** The attributes entered so far followed by what the rest of the scan finds. */
  ghost function AfterScan(found: seq<Attribute<Element>>, r: AttrScan): AttrScan {
    if r.ScanHang? then ScanHang else Scan(found + r.attrs)
  }

  /** Where the loop stands: `found` has been entered, and what is left gives the rest of `whole`. */
  ghost predicate Scanning(found: seq<Attribute<Element>>, p: seq<byte>, seqlen: int, extracted: nat, whole: AttrScan) {
    AfterScan(found, ScanAttrs(p, seqlen - extracted)) == whole
  }

  lemma ScanningStep(found: seq<Attribute<Element>>, p: seq<byte>, seqlen: int, extracted: nat, whole: AttrScan,
                     data: Extracted)
    requires Scanning(found, p, seqlen, extracted, whole)
    requires extracted < seqlen && |p| >= 3 && data == ExtractAttr(p[3..]) && data.Got?
    ensures Scanning(found + [Attribute(FromBE(p[1..3]), data.element)], p[3 + data.size..], seqlen,
                     extracted + 3 + data.size, whole)
  {
    var r := ScanAttrs(p[3 + data.size..], seqlen - extracted - 3 - data.size);
    if r.Scan? {
      Assoc(found, [Attribute(FromBE(p[1..3]), data.element)], r.attrs);
    }
  }

  lemma ScanningStop(found: seq<Attribute<Element>>, p: seq<byte>, seqlen: int, extracted: nat, whole: AttrScan)
    requires Scanning(found, p, seqlen, extracted, whole)
    requires extracted >= seqlen || |p| < 3 || ExtractAttr(p[3..]).Fail?
    ensures whole == Scan(found)
  {
  }

  lemma ScanningHangs(found: seq<Attribute<Element>>, p: seq<byte>, seqlen: int, extracted: nat, whole: AttrScan)
    requires Scanning(found, p, seqlen, extracted, whole)
    requires extracted < seqlen && |p| >= 3 && ExtractAttr(p[3..]).Hang?
    ensures whole == ScanHang
  {
  }

  /** `sdp_extract_pdu`: `hang` stands for a call that never returns. */
  method ExtractPdu(packet: seq<byte>) returns (rec: Record<Element>, scanned: int, hang: bool)
    ensures fresh(rec) && fresh(rec.attrlist) && rec.Valid()
    ensures hang == ScanRecord(packet).ScanHang?
    ensures !hang ==> rec.Attrs() == ReplaceAll(map[], ScanRecord(packet).attrs) && scanned == Scanned(packet)
  {
    rec := new Record<Element>();
    scanned, hang := 0, false;
    if packet == [] {
      return;
    }
    var header := SeqHeader(packet);
    if header.NoHeader? {
      return;
    }
    scanned := header.scanned;
    hang := ExtractLoop(rec, packet[scanned..], header.size);
    scanned := scanned + header.size;
  }

  method ExtractLoop(rec: Record<Element>, start: seq<byte>, seqlen: int) returns (hang: bool)
    requires rec.Valid() && rec.Attrs() == map[]
    modifies rec.attrlist, rec.attrlist.Repr()
    ensures rec.Valid()
    ensures hang == ScanAttrs(start, seqlen).ScanHang?
    ensures !hang ==> rec.Attrs() == ReplaceAll(map[], ScanAttrs(start, seqlen).attrs)
  {
    hide ScanAttrs, FromBE;
    var p, extracted := start, 0;
    ghost var found: seq<Attribute<Element>> := [];
    ghost var whole := ScanAttrs(start, seqlen);
    while extracted < seqlen && |p| > 0
      invariant rec.Valid() && fresh(rec.attrlist.Repr() - old(rec.attrlist.Repr()))
      invariant extracted >= 0 && Scanning(found, p, seqlen, extracted, whole)
      invariant rec.Attrs() == ReplaceAll(map[], found)
      decreases |p|
    {
      if |p| < 3 {
        break;
      }
      var id := FromBE(p[1..3]);
      var data := DecodeAttr(p[3..]);
      if data.Hang? {
        ScanningHangs(found, p, seqlen, extracted, whole);
        return true;
      }
      if data.Fail? {
        break;
      }
      ScanningStep(found, p, seqlen, extracted, whole, data);
      found := Enter(rec, id, data.element, found);
      p, extracted := p[3 + data.size..], extracted + 3 + data.size;
    }
    ScanningStop(found, p, seqlen, extracted, whole);
    hang := false;
  }

  /** Entering one attribute into the record. */
  method Enter(rec: Record<Element>, id: nat, data: Element, ghost found: seq<Attribute<Element>>)
    returns (ghost entered: seq<Attribute<Element>>)
    requires rec.Valid() && rec.Attrs() == ReplaceAll(map[], found)
    modifies rec.attrlist, rec.attrlist.Repr()
    ensures rec.Valid() && fresh(rec.attrlist.Repr() - old(rec.attrlist.Repr()))
    ensures entered == found + [Attribute(id, data)] && rec.Attrs() == ReplaceAll(map[], entered)
  {
    ReplaceAllAppend(map[], found, Attribute(id, data));
    entered := found + [Attribute(id, data)];
    rec.Replace(id, data);
  }
}
