/** Opcodes and error codes of the attribute protocol, and the two tables of the transaction engine. */
module AttDefs {
  import opened Bytes

  const OP_ERROR: byte := 0x01
  const OP_MTU_REQ: byte := 0x02
  const OP_MTU_RESP: byte := 0x03
  const OP_FIND_INFO_REQ: byte := 0x04
  const OP_FIND_INFO_RESP: byte := 0x05
  const OP_FIND_BY_TYPE_REQ: byte := 0x06
  const OP_FIND_BY_TYPE_RESP: byte := 0x07
  const OP_READ_BY_TYPE_REQ: byte := 0x08
  const OP_READ_BY_TYPE_RESP: byte := 0x09
  const OP_READ_REQ: byte := 0x0A
  const OP_READ_RESP: byte := 0x0B
  const OP_READ_BLOB_REQ: byte := 0x0C
  const OP_READ_BLOB_RESP: byte := 0x0D
  const OP_READ_MULTI_REQ: byte := 0x0E
  const OP_READ_MULTI_RESP: byte := 0x0F
  const OP_READ_BY_GROUP_REQ: byte := 0x10
  const OP_READ_BY_GROUP_RESP: byte := 0x11
  const OP_WRITE_REQ: byte := 0x12
  const OP_WRITE_RESP: byte := 0x13
  const OP_PREP_WRITE_REQ: byte := 0x16
  const OP_PREP_WRITE_RESP: byte := 0x17
  const OP_EXEC_WRITE_REQ: byte := 0x18
  const OP_EXEC_WRITE_RESP: byte := 0x19
  const OP_HANDLE_IND: byte := 0x1D
  const OP_HANDLE_CNF: byte := 0x1E

  const ECODE_ATTR_NOT_FOUND: byte := 0x0A
  const ECODE_IO: byte := 0x80
  const ECODE_TIMEOUT: byte := 0x81
  const ECODE_ABORTED: byte := 0x82

  /** `opcode2expected`: the opcode that completes a request, 0 if none does. */
  function Expected(opcode: byte): byte {
    if opcode == OP_MTU_REQ then OP_MTU_RESP
    else if opcode == OP_FIND_INFO_REQ then OP_FIND_INFO_RESP
    else if opcode == OP_FIND_BY_TYPE_REQ then OP_FIND_BY_TYPE_RESP
    else if opcode == OP_READ_BY_TYPE_REQ then OP_READ_BY_TYPE_RESP
    else if opcode == OP_READ_REQ then OP_READ_RESP
    else if opcode == OP_READ_BLOB_REQ then OP_READ_BLOB_RESP
    else if opcode == OP_READ_MULTI_REQ then OP_READ_MULTI_RESP
    else if opcode == OP_READ_BY_GROUP_REQ then OP_READ_BY_GROUP_RESP
    else if opcode == OP_WRITE_REQ then OP_WRITE_RESP
    else if opcode == OP_PREP_WRITE_REQ then OP_PREP_WRITE_RESP
    else if opcode == OP_EXEC_WRITE_REQ then OP_EXEC_WRITE_RESP
    else if opcode == OP_HANDLE_IND then OP_HANDLE_CNF
    else 0
  }

  predicate IsResponse(opcode: byte) {
    || opcode == OP_ERROR || opcode == OP_MTU_RESP || opcode == OP_FIND_INFO_RESP
    || opcode == OP_FIND_BY_TYPE_RESP || opcode == OP_READ_BY_TYPE_RESP || opcode == OP_READ_RESP
    || opcode == OP_READ_BLOB_RESP || opcode == OP_READ_MULTI_RESP || opcode == OP_READ_BY_GROUP_RESP
    || opcode == OP_WRITE_RESP || opcode == OP_PREP_WRITE_RESP || opcode == OP_EXEC_WRITE_RESP
    || opcode == OP_HANDLE_CNF
  }

  /** The opcodes that ask for a response, by their numbers; each response has the number above. */
  predicate IsRequest(opcode: byte) {
    || opcode == 0x02 || opcode == 0x04 || opcode == 0x06 || opcode == 0x08 || opcode == 0x0A || opcode == 0x0C
    || opcode == 0x0E || opcode == 0x10 || opcode == 0x12 || opcode == 0x16 || opcode == 0x18 || opcode == 0x1D
  }

  /** Both tables are what the numbers say: a request is completed by the opcode above it and by the error
      response, nothing else waits, and nothing else is a response. */
  lemma OpcodeTables(opcode: byte)
    ensures Expected(opcode) == if IsRequest(opcode) then opcode + 1 else 0
    ensures IsResponse(opcode) <==> opcode == 0x01 || (opcode > 0 && IsRequest(opcode - 1))
  {
  }

  /** No PDU both asks and answers, and whatever completes a request is a response. */
  lemma RequestsAreNotResponses(opcode: byte)
    ensures Expected(opcode) != 0 ==> !IsResponse(opcode) && IsResponse(Expected(opcode))
    ensures IsResponse(opcode) && opcode != OP_ERROR ==> exists r: byte :: Expected(r) == opcode
  {
    if IsResponse(opcode) && opcode != OP_ERROR {
      var request: byte := opcode - 1;
      assert Expected(request) == opcode;
    }
  }

  /** The buffer `received_data` reads into; the socket drops what does not fit. */
  const READ_BUFFER: nat := 512

  /** What is seen of a PDU. */
  function Seen(pdu: seq<byte>): (r: seq<byte>)
    ensures |r| <= READ_BUFFER && r <= pdu
    ensures |pdu| <= READ_BUFFER ==> r == pdu
    ensures |pdu| > READ_BUFFER ==> |r| == READ_BUFFER
  {
    if |pdu| > READ_BUFFER then pdu[..READ_BUFFER] else pdu
  }
}
