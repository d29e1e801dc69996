/** `sdp_append_to_buf`: a sequence header in front of appended chunks. */
module SdpFraming {
  import opened Bytes
  import opened SdpElements
  import opened SdpEncoder

  /** The bytes a buffer holds after its chunks added up to `payload`. */
  function Framed(payload: seq<byte>): seq<byte> {
    if |payload| <= 253 then [SEQ8] + BE(|payload|, 1) + payload
    else [SEQ16] + BE(|payload|, 2) + payload
  }

  function HeaderSize(payload: seq<byte>): nat {
    if |payload| <= 253 then 2 else 3
  }

  lemma FramedShape(payload: seq<byte>)
    ensures |Framed(payload)| == HeaderSize(payload) + |payload|
    ensures Framed(payload)[HeaderSize(payload)..] == payload
    ensures Framed(payload)[0] == if |payload| <= 253 then SEQ8 else SEQ16
  {
  }

  /** The buffer holds `payload` behind its header, or is zeroed and has had no append yet. */
  ghost predicate Frames(dst: SdpBuf, payload: seq<byte>)
    reads dst, dst.data
  {
    && dst.Ready()
    && if dst.dataSize == 0 then payload == [] && dst.bufSize >= 1 && dst.data[0] == 0
       else dst.Contents() == Framed(payload)
  }

  /** `body` sits behind a header of `k` bytes whose length field may be out of date. */
  ghost predicate HoldsBody(dst: SdpBuf, k: nat, body: seq<byte>)
    reads dst, dst.data
  {
    && dst.Ready() && k in {2, 3}
    && dst.dataSize == k + |body|
    && dst.data[0] == (if k == 2 then SEQ8 else SEQ16)
    && dst.data[k..dst.dataSize] == body
  }

  lemma FramedHoldsBody(dst: SdpBuf, payload: seq<byte>)
    requires Frames(dst, payload) && dst.dataSize > 0
    ensures HoldsBody(dst, HeaderSize(payload), payload)
  {
    FramedShape(payload);
    var k := HeaderSize(payload);
    assert dst.data[0] == dst.Contents()[0];
    assert dst.data[k..dst.dataSize] == dst.Contents()[k..];
  }

  /** Header of a first append. */
  method StartSequence(dst: SdpBuf, ghost payload: seq<byte>)
    requires Frames(dst, payload) && dst.bufSize >= 2
    modifies dst`dataSize, dst.data
    ensures HoldsBody(dst, HeaderSize(payload), payload)
  {
    if dst.dataSize == 0 && dst.data[0] == 0 {
      dst.data[0] := SEQ8;
      dst.dataSize := dst.dataSize + 2;
    } else {
      FramedHoldsBody(dst, payload);
    }
  }

  /** `memcpy` of a chunk at the end. */
  method CopyChunk(dst: SdpBuf, src: seq<byte>, ghost k: nat, ghost body: seq<byte>)
    requires HoldsBody(dst, k, body) && dst.dataSize + |src| <= dst.bufSize
    modifies dst`dataSize, dst.data
    ensures HoldsBody(dst, k, body + src)
  {
    Store(dst.data, dst.dataSize, src);
    assert dst.data[k..dst.dataSize] == body;
    dst.dataSize := dst.dataSize + |src|;
    assert dst.data[k..dst.dataSize] == body + src;
  }

  /** The switch to a two-byte length: everything past the header moves up one byte (`memmove`). */
  method MakeRoom(dst: SdpBuf, ghost body: seq<byte>)
    requires HoldsBody(dst, 2, body) && dst.dataSize < dst.bufSize
    modifies dst`dataSize, dst.data
    ensures HoldsBody(dst, 3, body)
  {
    var a, n := dst.data, dst.dataSize;
    forall i | 2 <= i < n {
      a[i + 1] := a[i];
    }
    a[0] := SEQ16;
    dst.dataSize := n + 1;
    assert forall i :: 3 <= i < n + 1 ==> a[i] == old(a[i - 1]) == body[i - 3];
  }

  /** The length field of a header that already has its final descriptor. */
  method SetLength(dst: SdpBuf, ghost body: seq<byte>)
    requires HoldsBody(dst, HeaderSize(body), body)
    modifies dst.data
    ensures dst.Ready() && dst.Contents() == Framed(body)
  {
    var k := LengthBytes(dst.data[0]);
    var field := BE(dst.dataSize - 1 - k, k);
    Store(dst.data, 1, field);
    assert dst.data[1 + k..dst.dataSize] == body;
    assert dst.Contents() == [dst.data[0]] + field + body;
  }

  /** `sdp_append_to_buf`. */
  method AppendToBuf(dst: SdpBuf, src: seq<byte>, ghost payload: seq<byte>)
    requires Frames(dst, payload)
    requires |Framed(payload + src)| <= dst.bufSize
    modifies dst`dataSize, dst.data
    ensures Frames(dst, payload + src)
    ensures dst.Contents() == Framed(payload + src)
  {
    FramedShape(payload + src);
    StartSequence(dst, payload);
    CopyChunk(dst, src, HeaderSize(payload), payload);
    if dst.dataSize > 255 && dst.data[0] == SEQ8 {
      MakeRoom(dst, payload + src);
    }
    SetLength(dst, payload + src);
  }
}
