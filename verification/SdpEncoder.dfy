/** `sdp_gen_pdu` and `sdp_gen_buffer`: the in-place encoder and the size estimator. */
module SdpEncoder {
  import opened Bytes
  import opened SdpElements

  /** `sdp_data_t`.  The encoder rewrites `dtd` only, so the links and the value are constant here;
      `items` is the chain hanging off `val.dataseq`. */
  class DataNode {
    var dtd: byte
    const val: Value
    const items: seq<DataNode>
    ghost const height: nat
    ghost const repr: set<DataNode>

    ghost predicate Valid()
      decreases height
    {
      && this in repr
      && (forall c <- items :: c.height < height && c.repr <= repr && this !in c.repr && c.Valid())
      && forall i, j :: 0 <= i < j < |items| ==> items[i].repr !! items[j].repr
    }

    /** The element this node stands for. */
    ghost function Tree(): Element
      requires Valid()
      reads repr
      decreases height
    {
      Element(dtd, val, seq(|items|, i requires 0 <= i < |items| reads repr => items[i].Tree()))
    }

    /** `sdp_data_alloc` of a node over an already built chain of elements. */
    constructor (dtd: byte, val: Value, items: seq<DataNode>)
      requires forall c <- items :: c.Valid()
      requires forall i, j :: 0 <= i < j < |items| ==> items[i].repr !! items[j].repr
      ensures Valid() && this.val == val && this.items == items && this.dtd == dtd
      ensures repr == {this} + set c, o | c in items && o in c.repr :: o
    {
      this.dtd, this.val, this.items := dtd, val, items;
      this.height := Tallest(items) + 1;
      this.repr := {this} + set c, o | c in items && o in c.repr :: o;
    }
  }

  ghost function Tallest(cs: seq<DataNode>): (h: nat)
    ensures forall c <- cs :: c.height <= h
  {
    if cs == [] then 0
    else
      var h := Tallest(cs[1..]);
      assert cs == [cs[0]] + cs[1..];
      if cs[0].height > h then cs[0].height else h
  }

  /** `sdp_buf_t`. */
  class SdpBuf {
    var data: array?<byte>
    var dataSize: nat
    var bufSize: nat

    /** `memset(buf, 0, sizeof(sdp_buf_t))`. */
    constructor Empty()
      ensures data == null && dataSize == 0 && bufSize == 0
    {
      data, dataSize, bufSize := null, 0, 0;
    }

    /** `malloc` of the recorded size; the contents are whatever they are. */
    method Allocate()
      modifies this`data
      requires dataSize <= bufSize
      ensures Ready() && fresh(data)
    {
      data := new byte[bufSize];
    }

    /** The buffer has storage of the recorded size and is filled up to `dataSize`. */
    ghost predicate Ready()
      reads this
    {
      data != null && data.Length == bufSize && dataSize <= bufSize
    }

    ghost function Contents(): seq<byte>
      requires Ready()
      reads this, data
    {
      data[..dataSize]
    }
  }

  /** `memcpy` into the buffer. */
  method Store(a: array<byte>, at: nat, src: seq<byte>)
    requires at + |src| <= a.Length
    modifies a
    ensures a[at..at + |src|] == src
    ensures forall i :: 0 <= i < a.Length && !(at <= i < at + |src|) ==> a[i] == old(a[i])
  {
    forall i | 0 <= i < |src| {
      a[at + i] := src[i];
    }
  }

  /** `sdp_get_data_size` of an element that is not a container. */
  function LeafSize(dtd: byte, val: Value): nat {
    if IsStr(dtd) then (if val.Text? then |val.chars| else 0) else Width(dtd)
  }

  lemma LeafSizeIsLength(e: Element)
    requires SupportedNode(e) && !IsContainer(e.dtd)
    ensures LeafSize(e.dtd, e.val) == |Body(e)|
  {
  }

  /** What `sdp_get_data_size` itself writes: the members of a container, nothing for a leaf. */
  ghost function Payload(e: Element): seq<byte> {
    if IsContainer(e.dtd) then Body(e) else []
  }

  /** One turn of the loop in `get_data_size`. */
  method GenMember(buf: SdpBuf, d: DataNode, i: nat) returns (size: nat)
    requires buf.Ready() && d.Valid() && i < |d.items| && Supported(d.Tree().items[i])
    requires buf.dataSize + |Encode(Promote(d.Tree().items[i]))| <= buf.bufSize
    modifies buf`dataSize, buf.data, d.repr - {d}
    ensures buf.Ready()
    ensures d.Tree() == Element(old(d.dtd), d.val, old(d.Tree().items)[i := Promote(old(d.Tree().items[i]))])
    ensures size == |Encode(d.Tree().items[i])|
    ensures buf.Contents() == old(buf.Contents()) + Encode(d.Tree().items[i])
    decreases d.height, 0
  {
    assert forall j :: 0 <= j < |d.items| && j != i ==> d.items[i].repr !! d.items[j].repr;
    size := GenPdu(buf, d.items[i]);
  }

  lemma SupportedItems(e: Element)
    requires Supported(e)
    ensures AllSupported(e.items)
  {
  }

  /** The first `i` members have been generated. */
  ghost predicate Generated(items: seq<Element>, ps: seq<Element>, ts: seq<Element>, i: nat) {
    && |items| == |ps| == |ts|
    && forall j :: 0 <= j < |ts| ==> items[j] == if j < i then ps[j] else ts[j]
  }

  lemma GeneratedNone(ps: seq<Element>, ts: seq<Element>)
    requires |ps| == |ts|
    ensures Generated(ts, ps, ts, 0)
  {
  }

  lemma GeneratedStep(items: seq<Element>, ps: seq<Element>, ts: seq<Element>, i: nat)
    requires Generated(items, ps, ts, i) && i < |ts|
    ensures |items| == |ts| && items[i] == ts[i] && Generated(items[i := ps[i]], ps, ts, i + 1)
  {
  }

  lemma GeneratedAll(items: seq<Element>, ps: seq<Element>, ts: seq<Element>)
    requires Generated(items, ps, ts, |ts|)
    ensures items == ps && ps[..|ts|] == ps
  {
  }

  lemma NoImage(ps: seq<Element>)
    ensures EncodeAll(ps[..0]) == []
  {
  }

  lemma ImageStep(front: seq<byte>, ps: seq<Element>, i: nat)
    requires i < |ps|
    ensures front + EncodeAll(ps[..i]) + Encode(ps[i]) == front + EncodeAll(ps[..i + 1])
    ensures |EncodeAll(ps[..i])| + |Encode(ps[i])| == |EncodeAll(ps[..i + 1])| <= |EncodeAll(ps)|
  {
    EncodeAllStep(ps, i);
  }

  /** `get_data_size` with storage present: encodes the chain and adds up the returned sizes. */
  method GetDataSize(buf: SdpBuf, d: DataNode) returns (n: nat)
    requires buf.Ready() && d.Valid() && Supported(d.Tree())
    requires buf.dataSize + |EncodeAll(PromoteAll(d.Tree().items))| <= buf.bufSize
    modifies buf`dataSize, buf.data, d.repr - {d}
    ensures buf.Ready()
    ensures d.Tree() == Element(old(d.dtd), d.val, PromoteAll(old(d.Tree()).items))
    ensures n == |EncodeAll(d.Tree().items)|
    ensures buf.Contents() == old(buf.Contents()) + EncodeAll(d.Tree().items)
    decreases d.height, 1
  {
    hide Encode, EncodeAll, Promote, Supported, Generated;
    n := 0;
    SupportedItems(d.Tree());
    ghost var ts := d.Tree().items;
    ghost var ps := PromoteAll(ts);
    ghost var front := buf.Contents();
    NoImage(ps);
    GeneratedNone(ps, ts);
    for i := 0 to |d.items|
      invariant buf.Ready()
      invariant d.dtd == old(d.dtd)
      invariant Generated(d.Tree().items, ps, ts, i)
      invariant n == |EncodeAll(ps[..i])|
      invariant buf.Contents() == front + EncodeAll(ps[..i])
    {
      ImageStep(front, ps, i);
      GeneratedStep(d.Tree().items, ps, ts, i);
      var size := GenMember(buf, d, i);
      n := n + size;
    }
    GeneratedAll(d.Tree().items, ps, ts);
  }

  /** `sdp_get_data_size` with storage present. */
  method ElementSize(buf: SdpBuf, d: DataNode) returns (n: nat)
    requires buf.Ready() && d.Valid() && Supported(d.Tree())
    requires buf.dataSize + |Payload(Promote(d.Tree()))| <= buf.bufSize
    modifies buf`dataSize, buf.data, d.repr - {d}
    ensures buf.Ready()
    ensures d.Tree() == Element(old(d.dtd), d.val, Promote(old(d.Tree())).items)
    ensures n == |Body(d.Tree())|
    ensures buf.Contents() == old(buf.Contents()) + Payload(d.Tree())
    decreases d.height, 2
  {
    if IsContainer(d.dtd) {
      n := GetDataSize(buf, d);
    } else {
      LeafSizeIsLength(d.Tree());
      n := LeafSize(d.dtd, d.val);
    }
  }

  /** One pass from `recalculate`: room for the header, then the payload. */
  method OnePass(buf: SdpBuf, d: DataNode) returns (pduSize: nat, dataSize: nat)
    requires buf.Ready() && d.Valid() && Supported(d.Tree())
    requires buf.dataSize + TypeSize(d.dtd) + |Payload(Promote(d.Tree()))| <= buf.bufSize
    modifies buf`dataSize, buf.data, d.repr - {d}
    ensures buf.Ready()
    ensures d.Tree() == Element(old(d.dtd), d.val, Promote(old(d.Tree())).items)
    ensures pduSize == TypeSize(d.dtd) && dataSize == |Body(d.Tree())|
    ensures buf.dataSize == old(buf.dataSize) + pduSize + |Payload(d.Tree())|
    ensures buf.data[..old(buf.dataSize)] == old(buf.Contents())
    ensures buf.data[old(buf.dataSize) + pduSize..buf.dataSize] == Payload(d.Tree())
    decreases d.height, 3
  {
    pduSize := TypeSize(d.dtd);
    buf.dataSize := buf.dataSize + pduSize;
    ghost var at, front := old(buf.dataSize), buf.Contents();
    assert front[..at] == old(buf.Contents());
    dataSize := ElementSize(buf, d);
    ghost var whole := front + Payload(d.Tree());
    assert buf.data[..buf.dataSize] == whole;
    assert buf.data[..at] == whole[..at] == front[..at];
    assert buf.data[at + pduSize..buf.dataSize] == whole[at + pduSize..] == Payload(d.Tree());
  }

  /** The `dtd = SDP_SEQ16` of the restart. */
  method Retype(d: DataNode)
    requires d.Valid()
    modifies d`dtd
    ensures d.Tree() == Element(SEQ16, d.val, old(d.Tree()).items)
  {
    d.dtd := SEQ16;
    assert forall i :: 0 <= i < |d.items| ==> d.items[i].Tree() == old(d.items[i].Tree());
  }

  /** The guarded copy of a leaf's own bytes. */
  method CopyLeaf(buf: SdpBuf, d: DataNode, dataSize: nat)
    requires buf.Ready() && d.Valid() && SupportedNode(d.Tree()) && !IsContainer(d.dtd)
    requires dataSize == |Body(d.Tree())| && buf.dataSize + dataSize <= buf.bufSize
    modifies buf`dataSize, buf.data
    ensures buf.Ready() && buf.Contents() == old(buf.Contents()) + Body(d.Tree())
  {
    var src := LeafBytes(Element(d.dtd, d.val, []));
    if d.val != NoValue && buf.bufSize >= buf.dataSize + dataSize {
      Store(buf.data, buf.dataSize, src);
      buf.dataSize := buf.dataSize + dataSize;
    }
  }

  /** The tail of `sdp_gen_pdu`: descriptor and length at `seqp`, then a leaf's own bytes if the
      copy guard allows. */
  method Finish(buf: SdpBuf, d: DataNode, seqp: nat, dataSize: nat)
    requires buf.Ready() && d.Valid() && SupportedNode(d.Tree())
    requires dataSize == |Body(d.Tree())|
    requires buf.dataSize == seqp + TypeSize(d.dtd) + |Payload(d.Tree())|
    requires buf.data[seqp + TypeSize(d.dtd)..buf.dataSize] == Payload(d.Tree())
    requires seqp + |Encode(d.Tree())| <= buf.bufSize
    modifies buf`dataSize, buf.data
    ensures buf.Ready()
    ensures buf.Contents() == old(buf.data[..seqp]) + Encode(d.Tree())
  {
    hide Body, LeafBytes, SupportedNode, BE;
    ghost var e := d.Tree();
    var header := [d.dtd] + BE(dataSize, LengthBytes(d.dtd));
    assert Encode(e) == header + Body(e);
    assert |Encode(e)| == |header| + |Body(e)|;
    ghost var front := buf.data[..seqp];
    Store(buf.data, seqp, header);
    assert buf.data[..seqp] == front && buf.data[seqp..seqp + |header|] == header;
    assert buf.data[seqp + |header|..buf.dataSize] == Payload(e);
    assert buf.Contents() == old(buf.data[..seqp]) + header + Payload(e);
    if !IsContainer(d.dtd) {
      CopyLeaf(buf, d, dataSize);
      assert buf.Contents() == old(buf.data[..seqp]) + header + Body(e);
    }
  }

  /** How promotion ends for an element whose members are promoted already. */
  lemma PromotedStep(e: Element)
    ensures var f := Element(e.dtd, e.val, Promote(e).items);
            Promote(e) == if |Body(f)| > 255 && e.dtd == SEQ8 then f.(dtd := SEQ16) else f
    ensures |Encode(Promote(e))| == TypeSize(Promote(e).dtd) + |Body(Promote(e))|
  {
  }

  /** `sdp_gen_pdu`: encodes at `dataSize`; a SEQ8 that turns out too long is retyped and the whole
      element generated again from its first byte. */
  method GenPdu(buf: SdpBuf, d: DataNode) returns (pduSize: nat)
    requires buf.Ready() && d.Valid() && Supported(d.Tree())
    requires buf.dataSize + |Encode(Promote(d.Tree()))| <= buf.bufSize
    modifies buf`dataSize, buf.data, d.repr
    ensures buf.Ready()
    ensures d.Tree() == Promote(old(d.Tree()))
    ensures pduSize == |Encode(d.Tree())|
    ensures buf.Contents() == old(buf.Contents()) + Encode(d.Tree())
    decreases d.height, 4
  {
    hide Promote, Encode, EncodeAll;
    ghost var e := d.Tree();
    PromoteKeepsShape(e);
    PromoteIdempotent(e);
    PromotedStep(e);
    assert Promote(Promote(e)) == Promote(e);
    var seqp, orig := buf.dataSize, buf.dataSize;
    var dataSize;
    pduSize, dataSize := OnePass(buf, d);
    while dataSize > 255 && d.dtd == SEQ8
      invariant buf.Ready() && buf.data == old(buf.data)
      invariant d.Tree() == Element(d.dtd, e.val, Promote(e).items)
      invariant d.dtd == e.dtd || d.Tree() == Promote(e)
      invariant pduSize == TypeSize(d.dtd) && dataSize == |Body(d.Tree())|
      invariant buf.dataSize == orig + pduSize + |Payload(d.Tree())|
      invariant buf.data[..orig] == old(buf.Contents())
      invariant buf.data[orig + pduSize..buf.dataSize] == Payload(d.Tree())
      decreases if d.dtd == SEQ8 then 1 else 0
    {
      buf.dataSize := orig;
      Retype(d);
      assert d.Tree() == Promote(e);
      pduSize, dataSize := OnePass(buf, d);
    }
    assert d.Tree() == Promote(e);
    Finish(buf, d, seqp, dataSize);
    pduSize := pduSize + dataSize;
  }
}
