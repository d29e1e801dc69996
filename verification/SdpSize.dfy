/** `sdp_gen_buffer`: how much storage an element may need. */
module SdpSize {
  import opened Bytes
  import opened SdpElements
  import opened SdpEncoder

  /** `buf_size` after `sdp_gen_buffer`, started at `start`.  The statement that adds the members'
      sizes to `buf_size` lets the compiler read the old value before (`late` false) or after
      (`late` true) the call that also advances it. */
  function GenBufferSize(late: bool, start: nat, e: Element): (size: nat)
    ensures size >= start
    decreases e, 1
  {
    var header := start + (if start == 0 && e.dtd == NIL then 2 else 0) + 3 + TypeSize(e.dtd);
    var after := if IsContainer(e.dtd) then GenBufferSizes(late, header, e.items) else header;
    var n := if IsContainer(e.dtd) then after - header else LeafSize(e.dtd, e.val);
    var size := (if late then after else header) + n;
    if size > 255 && e.dtd == SEQ8 then size + 1 else size
  }

  function GenBufferSizes(late: bool, start: nat, es: seq<Element>): (size: nat)
    ensures size >= start
    decreases es, 2
  {
    if es == [] then start
    else GenBufferSizes(late, GenBufferSize(late, start, es[0]), es[1..])
  }

  lemma {:induction false} GenBufferSizesAppend(late: bool, start: nat, es: seq<Element>, e: Element)
    ensures GenBufferSizes(late, start, es + [e]) == GenBufferSize(late, GenBufferSizes(late, start, es), e)
    decreases es
  {
    if es == [] {
      assert (es + [e])[1..] == [];
    } else {
      GenBufferSizesAppend(late, GenBufferSize(late, start, es[0]), es[1..], e);
      assert (es + [e])[1..] == es[1..] + [e];
    }
  }

  /** The estimate covers the attribute id and the promoted image, under either reading; every
      member of a container brings three bytes that are never written. */
  lemma {:induction false} EstimateCoversImage(late: bool, start: nat, e: Element)
    requires Supported(e)
    ensures GenBufferSize(late, start, e) >= start + 3 + |Encode(Promote(e))| + 3 * |e.items|
    decreases e, 1
  {
    if IsContainer(e.dtd) {
      EstimateCoversChain(late, start + 3 + TypeSize(e.dtd), e.items);
    } else {
      LeafSizeIsLength(e);
    }
  }

  lemma {:induction false} EstimateCoversChain(late: bool, start: nat, es: seq<Element>)
    requires AllSupported(es)
    ensures GenBufferSizes(late, start, es) >= start + |EncodeAll(PromoteAll(es))| + 3 * |es|
    decreases es, 2
  {
    if es != [] {
      var next := GenBufferSize(late, start, es[0]);
      EstimateCoversImage(late, start, es[0]);
      EstimateCoversChain(late, next, es[1..]);
      assert PromoteAll(es)[1..] == PromoteAll(es[1..]);
    }
  }

  /** What the estimate of elements without members has to spare: two bytes for a leading NIL, and one for
      each empty SEQ8 at which the running total exceeds 255. */
  function Spare(start: nat, es: seq<Element>): nat
    decreases |es|
  {
    if es == [] then 0
    else
      var one := SpareOf(start, es[0]);
      one + Spare(start + 3 + |Encode(es[0])| + one, es[1..])
  }

  function SpareOf(start: nat, e: Element): nat {
    if e.dtd == NIL then (if start == 0 then 2 else 0)
    else if e.dtd == SEQ8 && start + 3 + |Encode(e)| > 255 then 1
    else 0
  }

  /** An element without members is estimated to the byte, but for what it has to spare. */
  lemma MemberlessEstimate(late: bool, start: nat, e: Element)
    requires Supported(e) && e.items == []
    ensures Promote(e) == e
    ensures GenBufferSize(late, start, e) == start + 3 + |Encode(e)| + SpareOf(start, e)
  {
    if !IsContainer(e.dtd) {
      LeafSizeIsLength(e);
    }
  }

  /** The nodes of a tree, and those among them that are short sequences. */
  function Nodes(e: Element): nat
    decreases e, 1
  {
    1 + NodesOf(e.items)
  }

  function NodesOf(es: seq<Element>): nat
    decreases es, 2
  {
    if es == [] then 0 else Nodes(es[0]) + NodesOf(es[1..])
  }

  function Shorts(e: Element): nat
    decreases e, 1
  {
    (if e.dtd == SEQ8 then 1 else 0) + ShortsOf(e.items)
  }

  function ShortsOf(es: seq<Element>): nat
    decreases es, 2
  {
    if es == [] then 0 else Shorts(es[0]) + ShortsOf(es[1..])
  }

  /** Where the old total is read before the call, the estimate of a tree is its image and three bytes for each of
      its nodes, but for a leading NIL and at most one byte for each short sequence. */
  lemma {:induction false} EarlyEstimate(start: nat, e: Element)
    requires Supported(e)
    ensures var least := start + |Encode(e)| + 3 * Nodes(e) + if start == 0 && e.dtd == NIL then 2 else 0;
            least <= GenBufferSize(false, start, e) <= least + Shorts(e)
    decreases e, 1
  {
    if IsContainer(e.dtd) {
      EarlyChain(start + 3 + TypeSize(e.dtd), e.items);
    } else {
      LeafSizeIsLength(e);
    }
  }

  lemma {:induction false} EarlyChain(start: nat, es: seq<Element>)
    requires AllSupported(es) && start > 0
    ensures var least := start + |EncodeAll(es)| + 3 * NodesOf(es);
            least <= GenBufferSizes(false, start, es) <= least + ShortsOf(es)
    decreases es, 2
  {
    if es != [] {
      EarlyEstimate(start, es[0]);
      EarlyChain(GenBufferSize(false, start, es[0]), es[1..]);
    }
  }

  /** `get_data_size` without storage. */
  method ChainSize(buf: SdpBuf, d: DataNode, late: bool) returns (n: nat)
    requires buf.data == null && d.Valid()
    modifies buf`bufSize
    ensures buf.bufSize == GenBufferSizes(late, old(buf.bufSize), d.Tree().items)
    ensures n == buf.bufSize - old(buf.bufSize)
    decreases d.height, 0
  {
    n := 0;
    ghost var ts := d.Tree().items;
    for i := 0 to |d.items|
      invariant buf.bufSize == GenBufferSizes(late, old(buf.bufSize), ts[..i])
      invariant n == buf.bufSize - old(buf.bufSize)
    {
      GenBufferSizesAppend(late, old(buf.bufSize), ts[..i], ts[i]);
      assert ts[..i + 1] == ts[..i] + [ts[i]];
      var size := GenBuffer(buf, d.items[i], late);
      n := n + size;
    }
    assert ts[..|ts|] == ts;
  }

  /** The steps of `sdp_gen_buffer` add up to the total. */
  lemma SizeSteps(late: bool, start: nat, e: Element, header: nat, after: nat, n: nat)
    requires header == start + (if start == 0 && e.dtd == NIL then 2 else 0) + 3 + TypeSize(e.dtd)
    requires if IsContainer(e.dtd) then after == GenBufferSizes(late, header, e.items) && n == after - header
             else after == header && n == LeafSize(e.dtd, e.val)
    ensures var size := (if late then after else header) + n;
            GenBufferSize(late, start, e) == if size > 255 && e.dtd == SEQ8 then size + 1 else size
  {
  }

  /** `sdp_gen_buffer`. */
  method GenBuffer(buf: SdpBuf, d: DataNode, late: bool) returns (added: nat)
    requires buf.data == null && d.Valid()
    modifies buf`bufSize
    ensures buf.bufSize == GenBufferSize(late, old(buf.bufSize), d.Tree())
    ensures added == buf.bufSize - old(buf.bufSize)
    decreases d.height, 1
  {
    hide GenBufferSize, GenBufferSizes, LeafSize, TypeSize;
    var orig := buf.bufSize;
    ghost var e := d.Tree();
    assert e.dtd == d.dtd && e.val == d.val;
    if buf.bufSize == 0 && d.dtd == NIL {
      buf.bufSize := buf.bufSize + 2;
    }
    buf.bufSize := buf.bufSize + 3;
    buf.bufSize := buf.bufSize + TypeSize(d.dtd);
    var before := buf.bufSize;
    var size: nat;
    if IsContainer(d.dtd) {
      size := ChainSize(buf, d, late);
    } else {
      size := LeafSize(d.dtd, d.val);
    }
    SizeSteps(late, orig, e, before, buf.bufSize, size);
    buf.bufSize := (if late then buf.bufSize else before) + size;
    if buf.bufSize > 255 && d.dtd == SEQ8 {
      buf.bufSize := buf.bufSize + 1;
    }
    assert d.Tree() == e;
    added := buf.bufSize - orig;
  }
}
