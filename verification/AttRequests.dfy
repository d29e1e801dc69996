/** Requests as a peer reads them: the PDU formats of section 3.4 of Bluetooth Core 4.0 Vol 3 Part F, by number. */
module AttRequests {
  import opened Bytes
  import opened AttDefs
  import opened AttCodec

  datatype Request =
    | FindByType(start: nat, end: nat, kind: nat, value: seq<byte>)
    | ReadByType(start: nat, end: nat, kind: nat)
    | ReadByGroup(start: nat, end: nat, kind: nat)
    | ReadValue(handle: nat)
    | ReadBlob(handle: nat, offset: nat)
    | WriteValue(handle: nat, value: seq<byte>)
    | PrepareWrite(handle: nat, offset: nat, value: seq<byte>)
    | ExecuteWrite(flags: byte)
    | Other

  /** The two bytes at `i`, the low one first. */
  function Word(pdu: seq<byte>, i: nat): (w: nat)
    requires i + 1 < |pdu|
    ensures w < 0x1_0000
  {
    pdu[i] as int + 256 * (pdu[i + 1] as int)
  }

  function Parse(pdu: seq<byte>): Request {
    if |pdu| >= 7 && pdu[0] == 0x06 then FindByType(Word(pdu, 1), Word(pdu, 3), Word(pdu, 5), pdu[7..])
    else if |pdu| == 7 && pdu[0] == 0x08 then ReadByType(Word(pdu, 1), Word(pdu, 3), Word(pdu, 5))
    else if |pdu| == 7 && pdu[0] == 0x10 then ReadByGroup(Word(pdu, 1), Word(pdu, 3), Word(pdu, 5))
    else if |pdu| == 3 && pdu[0] == 0x0A then ReadValue(Word(pdu, 1))
    else if |pdu| == 5 && pdu[0] == 0x0C then ReadBlob(Word(pdu, 1), Word(pdu, 3))
    else if |pdu| >= 3 && pdu[0] == 0x12 then WriteValue(Word(pdu, 1), pdu[3..])
    else if |pdu| >= 5 && pdu[0] == 0x16 then PrepareWrite(Word(pdu, 1), Word(pdu, 3), pdu[5..])
    else if |pdu| == 2 && pdu[0] == 0x18 then ExecuteWrite(pdu[1])
    else Other
  }

  lemma WordAt(front: seq<byte>, v: nat, rest: seq<byte>)
    requires v < 0x1_0000
    ensures Word(front + LE16(v) + rest, |front|) == v
  {
    ByteOrders(v);
    var pdu := front + LE16(v) + rest;
    assert pdu[|front|] == LE16(v)[0] && pdu[|front| + 1] == LE16(v)[1];
  }

  /** What a peer reads of a read request is the handle asked for. */
  lemma ReadParsed(handle: nat)
    requires handle <= 0xffff
    ensures Parse(ReadReq(handle)) == ReadValue(handle)
  {
    WordAt([OP_READ_REQ], handle, []);
    assert ReadReq(handle) + [] == ReadReq(handle);
  }

  lemma ReadBlobParsed(handle: nat, offset: nat)
    requires handle <= 0xffff && offset <= 0xffff
    ensures Parse(ReadBlobReq(handle, offset)) == ReadBlob(handle, offset)
  {
    var pdu := ReadBlobReq(handle, offset);
    WordAt([OP_READ_BLOB_REQ], handle, LE16(offset));
    WordAt([OP_READ_BLOB_REQ] + LE16(handle), offset, []);
    assert pdu + [] == pdu;
  }

  lemma ReadByTypeParsed(start: nat, end: nat, kind: nat)
    requires start <= 0xffff && end <= 0xffff && kind <= 0xffff
    ensures Parse(ReadByTypeReq(start, end, kind)) == ReadByType(start, end, kind)
  {
    var pdu := ReadByTypeReq(start, end, kind);
    RangeParsed(OP_READ_BY_TYPE_REQ, start, end, kind, []);
    assert pdu + [] == pdu;
  }

  lemma RangeParsed(opcode: byte, start: nat, end: nat, kind: nat, rest: seq<byte>)
    requires start <= 0xffff && end <= 0xffff && kind <= 0xffff
    ensures var pdu := [opcode] + LE16(start) + LE16(end) + LE16(kind) + rest;
            Word(pdu, 1) == start && Word(pdu, 3) == end && Word(pdu, 5) == kind && pdu[7..] == rest
  {
    var pdu := [opcode] + LE16(start) + LE16(end) + LE16(kind) + rest;
    WordAt([opcode], start, LE16(end) + LE16(kind) + rest);
    WordAt([opcode] + LE16(start), end, LE16(kind) + rest);
    WordAt([opcode] + LE16(start) + LE16(end), kind, rest);
    assert pdu == [opcode] + LE16(start) + (LE16(end) + LE16(kind) + rest);
    assert pdu == [opcode] + LE16(start) + LE16(end) + (LE16(kind) + rest);
  }

  lemma ReadByGroupParsed(start: nat, end: nat, kind: nat)
    requires start <= 0xffff && end <= 0xffff && kind <= 0xffff
    ensures Parse(ReadByGrpReq(start, end, kind)) == ReadByGroup(start, end, kind)
  {
    var pdu := ReadByGrpReq(start, end, kind);
    RangeParsed(OP_READ_BY_GROUP_REQ, start, end, kind, []);
    assert pdu + [] == pdu;
  }

  /** A UUID as the value fits every PDU. */
  lemma FindByTypeParsed(start: nat, end: nat, kind: nat, value: seq<byte>, len: nat)
    requires start <= 0xffff && end <= 0xffff && kind <= 0xffff && len >= 23 && |value| <= 16
    ensures Parse(FindByTypeReq(start, end, kind, value, len)) == FindByType(start, end, kind, value)
  {
    RangeParsed(OP_FIND_BY_TYPE_REQ, start, end, kind, value);
  }

  /** A write request carries the value if it fits behind three bytes, and is cut to the PDU otherwise. */
  lemma WriteParsed(handle: nat, value: seq<byte>, len: nat)
    requires handle <= 0xffff && len >= 3
    ensures Parse(WriteReq(handle, value, len)) ==
            WriteValue(handle, if |value| <= len - 3 then value else value[..len - 3])
  {
    var pdu := WriteReq(handle, value, len);
    WordAt([OP_WRITE_REQ], handle, pdu[3..]);
    assert pdu == [OP_WRITE_REQ] + LE16(handle) + pdu[3..];
  }

  lemma PrepareParsed(handle: nat, offset: nat, value: seq<byte>, len: nat)
    requires handle <= 0xffff && offset <= 0xffff && len >= 5
    ensures Parse(PrepWriteReq(handle, offset, value, len)) ==
            PrepareWrite(handle, offset, if |value| <= len - 5 then value else value[..len - 5])
  {
    var pdu := PrepWriteReq(handle, offset, value, len);
    WordAt([OP_PREP_WRITE_REQ], handle, pdu[3..]);
    WordAt([OP_PREP_WRITE_REQ] + LE16(handle), offset, pdu[5..]);
    assert pdu == [OP_PREP_WRITE_REQ] + LE16(handle) + pdu[3..];
    assert pdu == [OP_PREP_WRITE_REQ] + LE16(handle) + LE16(offset) + pdu[5..];
  }
}
