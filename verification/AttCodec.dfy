/** The list responses of the attribute protocol and the request encoders the procedures use. */
module AttCodec {
  import opened Bytes
  import opened AttDefs

  /** `struct att_data_list`: entries of one length. */
  datatype DataList = DataList(len: nat, data: seq<seq<byte>>)

  predicate Uniform(data: seq<seq<byte>>, n: nat) {
    forall i :: 0 <= i < |data| ==> |data[i]| == n
  }

  function Flat(data: seq<seq<byte>>): seq<byte> {
    if data == [] then [] else data[0] + Flat(data[1..])
  }

  /** The first `l` bytes of every entry. */
  function Cut(data: seq<seq<byte>>, l: nat): (r: seq<seq<byte>>)
    requires forall i :: 0 <= i < |data| ==> |data[i]| >= l
    ensures |r| == |data| && Uniform(r, l)
  {
    seq(|data|, i requires 0 <= i < |data| => data[i][..l])
  }

  lemma CutNothing(data: seq<seq<byte>>, n: nat)
    requires Uniform(data, n)
    ensures Cut(data, n) == data
  {
    forall i | 0 <= i < |data| ensures Cut(data, n)[i] == data[i] {
      assert data[i][..n] == data[i];
    }
  }

  /** `n`-byte pieces of a byte string, without a shorter rest. */
  function Chunks(bytes: seq<byte>, n: nat): (r: seq<seq<byte>>)
    requires n > 0
    ensures Uniform(r, n)
    decreases |bytes|
  {
    if |bytes| < n then []
    else [bytes[..n]] + Chunks(bytes[n..], n)
  }

  lemma {:induction false} FlatLength(data: seq<seq<byte>>, n: nat)
    requires Uniform(data, n)
    ensures |Flat(data)| == |data| * n
  {
    if data != [] {
      assert forall i :: 0 <= i < |data| - 1 ==> data[1..][i] == data[i + 1];
      FlatLength(data[1..], n);
      assert |data| * n == n + (|data| - 1) * n;
    }
  }

  lemma {:induction false} FlatAppend(data: seq<seq<byte>>, x: seq<byte>)
    ensures Flat(data + [x]) == Flat(data) + x
  {
    if data == [] {
      assert [x][1..] == [] && data + [x] == [x];
    } else {
      FlatAppend(data[1..], x);
      assert (data + [x])[1..] == data[1..] + [x] && (data + [x])[0] == data[0];
    }
  }

  lemma ChunksFirst(head: seq<byte>, tail: seq<byte>)
    requires head != []
    ensures Chunks(head + tail, |head|) == [head] + Chunks(tail, |head|)
  {
    assert (head + tail)[..|head|] == head && (head + tail)[|head|..] == tail;
  }

  /** Cutting a packed list apart gives its entries back; a rest shorter than an entry is dropped. */
  lemma {:induction false} ChunksOfFlat(data: seq<seq<byte>>, n: nat, rest: seq<byte>)
    requires Uniform(data, n) && n > |rest|
    ensures Chunks(Flat(data) + rest, n) == data
  {
    if data == [] {
      assert Flat(data) + rest == rest;
    } else {
      assert forall i :: 0 <= i < |data| - 1 ==> data[1..][i] == data[i + 1];
      ChunksOfFlat(data[1..], n, rest);
      Assoc(data[0], Flat(data[1..]), rest);
      ChunksFirst(data[0], Flat(data[1..]) + rest);
      assert [data[0]] + data[1..] == data;
    }
  }

  lemma DivUnique(m: int, n: int, q: int, r: int)
    requires 0 <= r < n && m == q * n + r
    ensures m / n == q
  {
    var d := m / n;
    assert m == d * n + m % n;
    if d < q {
      NextMultiple(d, q, n);
    } else if d > q {
      NextMultiple(q, d, n);
    }
  }

  lemma {:induction false} ChunksCount(bytes: seq<byte>, n: nat)
    requires n > 0
    ensures |Chunks(bytes, n)| == |bytes| / n
    ensures |bytes| / n * n <= |bytes|
    decreases |bytes|
  {
    var q := |Chunks(bytes, n)|;
    if |bytes| < n {
      DivUnique(|bytes|, n, 0, |bytes|);
    } else {
      ChunksCount(bytes[n..], n);
      var r := |bytes[n..]| % n;
      assert |bytes| == (|bytes[n..]| / n + 1) * n + r;
      DivUnique(|bytes|, n, q, r);
    }
  }

  /** How many `l`-byte entries fit behind two header bytes. */
  function Room(num: nat, l: nat, len: nat): (k: nat)
    requires l > 0 && len >= 2
    ensures k <= num
  {
    var most := (len - 2) / l;
    if num <= most then num else most
  }

  /** The longest prefix that fits: one more entry would not. */
  lemma RoomIsLongest(num: nat, l: nat, len: nat)
    requires l > 0 && len >= 2
    ensures 2 + Room(num, l, len) * l <= len
    ensures Room(num, l, len) < num ==> 2 + (Room(num, l, len) + 1) * l > len
  {
    var most := (len - 2) / l;
    assert most * l <= len - 2 < (most + 1) * l by {
      assert len - 2 == most * l + (len - 2) % l;
    }
    if num <= most {
      assert num * l <= most * l;
    }
  }

  /** A list response: opcode, one header byte, and the entries. */
  function ListPdu(opcode: byte, header: byte, data: seq<seq<byte>>): seq<byte> {
    [opcode, header] + Flat(data)
  }

  /** Where the bytes of a list response are: opcode and header byte in front, then one entry behind the other. */
  lemma ListLayout(opcode: byte, header: byte, data: seq<seq<byte>>, n: nat, i: nat, j: nat)
    requires Uniform(data, n) && i < |data| && j < n
    ensures var pdu := ListPdu(opcode, header, data);
            && |pdu| == 2 + |data| * n && pdu[0] == opcode && pdu[1] == header
            && 2 + i * n + j < |pdu| && pdu[2 + i * n + j] == data[i][j]
  {
    FlatLength(data, n);
    FlatAt(data, n, i, j);
  }

  lemma {:induction false} FlatAt(data: seq<seq<byte>>, n: nat, i: nat, j: nat)
    requires Uniform(data, n) && i < |data| && j < n
    ensures 0 <= i * n && i * n + j < |Flat(data)| && Flat(data)[i * n + j] == data[i][j]
    decreases i
  {
    if i > 0 {
      assert forall k :: 0 <= k < |data| - 1 ==> data[1..][k] == data[k + 1];
      FlatAt(data[1..], n, i - 1, j);
      assert i * n == (i - 1) * n + n;
    }
  }

  /** `memcpy` into a PDU. */
  method Put(pdu: array<byte>, at: nat, src: seq<byte>)
    requires at + |src| <= pdu.Length
    modifies pdu
    ensures pdu[at..at + |src|] == src
    ensures pdu[..at] == old(pdu[..at])
  {
    forall i | 0 <= i < |src| {
      pdu[at + i] := src[i];
    }
  }

  /** The copy loop of the list encoders: entries, cut to `l` bytes, as long as the next one fits. */
  method PackEntries(data: seq<seq<byte>>, l: nat, pdu: array<byte>) returns (w: nat)
    requires pdu.Length >= 2 && l > 0
    requires forall i :: 0 <= i < |data| ==> |data[i]| >= l
    modifies pdu
    ensures w <= pdu.Length
    ensures pdu[..w] == old(pdu[..2]) + Flat(Cut(data, l)[..Room(|data|, l, pdu.Length)])
  {
    ghost var cut := Cut(data, l);
    w := 2;
    var i := 0;
    while i < |data| && w + l <= pdu.Length
      invariant i <= |data|
      invariant w == 2 + i * l <= pdu.Length
      invariant pdu[..w] == old(pdu[..2]) + Flat(cut[..i])
    {
      Put(pdu, w, data[i][..l]);
      assert cut[..i + 1] == cut[..i] + [cut[i]];
      FlatAppend(cut[..i], cut[i]);
      assert pdu[..w + l] == pdu[..w] + pdu[w..w + l];
      assert (i + 1) * l == i * l + l;
      w := w + l;
      i := i + 1;
    }
    RoomIs(i, |data|, l, pdu.Length);
  }

  lemma RoomIs(i: nat, num: nat, l: nat, len: nat)
    requires l > 0 && len >= 2 && i <= num && 2 + i * l <= len
    requires i == num || 2 + i * l + l > len
    ensures i == Room(num, l, len)
  {
    RoomIsLongest(num, l, len);
    var k := Room(num, l, len);
    if i < k {
      NextMultiple(i, k, l);
    } else if i > k {
      NextMultiple(k, i, l);
    }
  }

  // ---------------------------------------------------------------- encoders

  /** `enc_read_by_grp_resp`; the PDU has to be able to hold one entry. */
  method EncReadByGrpResp(list: DataList, pdu: array<byte>) returns (w: nat)
    requires Uniform(list.data, list.len) && 0 < list.len <= 255
    modifies pdu
    ensures w == 0 <==> pdu.Length < list.len + 2
    ensures w <= pdu.Length
    ensures w > 0 ==>
              pdu[..w] == ListPdu(OP_READ_BY_GROUP_RESP, list.len,
                                  list.data[..Room(|list.data|, list.len, pdu.Length)])
  {
    if pdu.Length < list.len + 2 {
      return 0;
    }
    pdu[0] := OP_READ_BY_GROUP_RESP;
    pdu[1] := list.len;
    w := PackEntries(list.data, list.len, pdu);
    CutNothing(list.data, list.len);
  }

  /** `enc_find_info_resp`. */
  method EncFindInfoResp(format: byte, list: DataList, pdu: array<byte>) returns (w: nat)
    requires Uniform(list.data, list.len) && 0 < list.len <= 255
    modifies pdu
    ensures w == 0 <==> pdu.Length < list.len + 2
    ensures w <= pdu.Length
    ensures w > 0 ==>
              pdu[..w] == ListPdu(OP_FIND_INFO_RESP, format,
                                  list.data[..Room(|list.data|, list.len, pdu.Length)])
  {
    if pdu.Length < list.len + 2 {
      return 0;
    }
    pdu[0] := OP_FIND_INFO_RESP;
    pdu[1] := format;
    w := PackEntries(list.data, list.len, pdu);
    CutNothing(list.data, list.len);
  }

  /** `enc_read_by_type_resp`: entries longer than the PDU are all cut to what one PDU holds. */
  method EncReadByTypeResp(list: DataList, pdu: array<byte>) returns (w: nat)
    requires Uniform(list.data, list.len) && 0 < list.len <= 255 && pdu.Length > 2
    modifies pdu
    ensures var l := if pdu.Length - 2 < list.len then pdu.Length - 2 else list.len;
            && w <= pdu.Length
            && pdu[..w] == ListPdu(OP_READ_BY_TYPE_RESP, l, Cut(list.data, l)[..Room(|list.data|, l, pdu.Length)])
  {
    var l := if pdu.Length - 2 < list.len then pdu.Length - 2 else list.len;
    pdu[0] := OP_READ_BY_TYPE_RESP;
    pdu[1] := l;
    w := PackEntries(list.data, l, pdu);
  }

  // ---------------------------------------------------------------- decoders

  /** `dec_read_by_grp_resp` and `dec_read_by_type_resp`, which differ in the opcode they expect.  The
      C code divides by the length byte, so a caller must not hand in a zero there. */
  function DecList(opcode: byte, pdu: seq<byte>): Option<DataList>
    requires |pdu| >= 2 && (pdu[0] == opcode ==> pdu[1] > 0)
  {
    if pdu[0] != opcode then None
    else Some(DataList(pdu[1], Chunks(pdu[2..], pdu[1])))
  }

  /** `dec_find_info_resp`: the entry length follows from the format. */
  function DecFindInfo(pdu: seq<byte>): Option<(byte, DataList)>
    requires |pdu| >= 2
  {
    if pdu[0] != OP_FIND_INFO_RESP then None
    else
      var n := 2 + if pdu[1] == 1 then 2 else if pdu[1] == 2 then 16 else 0;
      Some((pdu[1], DataList(n, Chunks(pdu[2..], n))))
  }

  /** The copy loop of the list decoders. */
  method UnpackEntries(pdu: seq<byte>, elen: nat) returns (data: seq<seq<byte>>)
    requires |pdu| >= 2 && elen > 0
    ensures data == Chunks(pdu[2..], elen)
  {
    var num := (|pdu| - 2) / elen;
    ghost var whole := Chunks(pdu[2..], elen);
    ChunksCount(pdu[2..], elen);
    data := [];
    var ptr := 2;
    for i := 0 to num
      invariant ptr == 2 + i * elen <= |pdu|
      invariant data + Chunks(pdu[ptr..], elen) == whole
      invariant |data| == i
    {
      NextMultiple(i, num, elen);
      assert pdu[ptr..][..elen] == pdu[ptr..ptr + elen] && pdu[ptr..][elen..] == pdu[ptr + elen..];
      Assoc(data, [pdu[ptr..ptr + elen]], Chunks(pdu[ptr + elen..], elen));
      data := data + [pdu[ptr..ptr + elen]];
      ptr := ptr + elen;
    }
    assert Chunks(pdu[ptr..], elen) == [];
  }

  method DecReadByGrpResp(pdu: seq<byte>) returns (list: Option<DataList>)
    requires |pdu| >= 2 && (pdu[0] == OP_READ_BY_GROUP_RESP ==> pdu[1] > 0)
    ensures list == DecList(OP_READ_BY_GROUP_RESP, pdu)
  {
    if pdu[0] != OP_READ_BY_GROUP_RESP {
      return None;
    }
    var data := UnpackEntries(pdu, pdu[1]);
    list := Some(DataList(pdu[1], data));
  }

  method DecReadByTypeResp(pdu: seq<byte>) returns (list: Option<DataList>)
    requires |pdu| >= 2 && (pdu[0] == OP_READ_BY_TYPE_RESP ==> pdu[1] > 0)
    ensures list == DecList(OP_READ_BY_TYPE_RESP, pdu)
  {
    if pdu[0] != OP_READ_BY_TYPE_RESP {
      return None;
    }
    var data := UnpackEntries(pdu, pdu[1]);
    list := Some(DataList(pdu[1], data));
  }

  method DecFindInfoResp(pdu: seq<byte>) returns (r: Option<(byte, DataList)>)
    requires |pdu| >= 2
    ensures r == DecFindInfo(pdu)
  {
    if pdu[0] != OP_FIND_INFO_RESP {
      return None;
    }
    var elen := 2;
    if pdu[1] == 1 {
      elen := elen + 2;
    } else if pdu[1] == 2 {
      elen := elen + 16;
    }
    var data := UnpackEntries(pdu, elen);
    r := Some((pdu[1], DataList(elen, data)));
  }

  // ---------------------------------------------------------------- round trips

  /** What a list encoder wrote, a list decoder reads back: exactly the entries that were packed. */
  lemma DecListOfListPdu(opcode: byte, n: byte, data: seq<seq<byte>>)
    requires n > 0 && Uniform(data, n)
    ensures DecList(opcode, ListPdu(opcode, n, data)) == Some(DataList(n, data))
  {
    ChunksOfFlat(data, n, []);
    assert Flat(data) + [] == Flat(data);
    assert ListPdu(opcode, n, data)[2..] == Flat(data);
  }

  lemma FlatPrefix(data: seq<seq<byte>>, n: nat, k: nat)
    requires Uniform(data, n) && k <= |data|
    ensures |Flat(data)| >= k * n >= 0 && Flat(data)[..k * n] == Flat(data[..k])
  {
    assert data == data[..k] + data[k..];
    FlatConcat(data[..k], data[k..]);
    assert forall i :: 0 <= i < |data[..k]| ==> data[..k][i] == data[i];
    FlatLength(data[..k], n);
  }

  lemma {:induction false} FlatConcat(a: seq<seq<byte>>, b: seq<seq<byte>>)
    ensures Flat(a + b) == Flat(a) + Flat(b)
  {
    if a == [] {
      assert a + b == b;
    } else {
      FlatConcat(a[1..], b);
      assert (a + b)[1..] == a[1..] + b && (a + b)[0] == a[0];
      Assoc(a[0], Flat(a[1..]), Flat(b));
    }
  }

  /** Of a list response longer than the read buffer, the whole entries in front are read back. */
  lemma DecSeenListPdu(opcode: byte, n: byte, data: seq<seq<byte>>) returns (k: nat)
    requires 0 < n <= 255 && Uniform(data, n)
    ensures k <= |data| && (data != [] ==> k > 0)
    ensures DecList(opcode, Seen(ListPdu(opcode, n, data))) == Some(DataList(n, data[..k]))
  {
    var pdu := ListPdu(opcode, n, data);
    FlatLength(data, n);
    if |pdu| <= READ_BUFFER {
      k := |data|;
      assert data[..k] == data;
      DecListOfListPdu(opcode, n, data);
    } else {
      k := (READ_BUFFER - 2) / n;
      RoomIsLongest(|data|, n, READ_BUFFER);
      assert Room(|data|, n, READ_BUFFER) == k;
      SeenChunks(opcode, n, data, k);
    }
  }

  lemma SeenChunks(opcode: byte, n: byte, data: seq<seq<byte>>, k: nat)
    requires n > 0 && Uniform(data, n) && k < |data| && |ListPdu(opcode, n, data)| > READ_BUFFER
    requires k * n <= READ_BUFFER - 2 < k * n + n
    ensures DecList(opcode, Seen(ListPdu(opcode, n, data))) == Some(DataList(n, data[..k]))
  {
    var pdu := ListPdu(opcode, n, data);
    FlatPrefix(data, n, k);
    var rest := Flat(data)[k * n..READ_BUFFER - 2];
    assert Seen(pdu)[2..] == Flat(data)[..k * n] + rest;
    ChunksOfFlat(data[..k], n, rest);
  }

  /** The same for handle-and-UUID pairs, when the format matches the entry length; any other format stands for
      handles alone. */
  lemma DecFindInfoOfListPdu(format: byte, n: nat, data: seq<seq<byte>>)
    requires n == if format == 1 then 4 else if format == 2 then 18 else 2
    requires Uniform(data, n)
    ensures DecFindInfo(ListPdu(OP_FIND_INFO_RESP, format, data)) == Some((format, DataList(n, data)))
  {
    ChunksOfFlat(data, n, []);
    assert Flat(data) + [] == Flat(data);
    assert ListPdu(OP_FIND_INFO_RESP, format, data)[2..] == Flat(data);
  }

  /** For every list and every PDU size that holds an entry, decoding the encoded list gives the longest
      prefix of it that fits. */
  lemma ListCodec(opcode: byte, list: DataList, len: nat)
    requires Uniform(list.data, list.len) && 0 < list.len <= 255 && len >= list.len + 2
    ensures var k := Room(|list.data|, list.len, len);
            && DecList(opcode, ListPdu(opcode, list.len, list.data[..k])) == Some(DataList(list.len, list.data[..k]))
            && |ListPdu(opcode, list.len, list.data[..k])| <= len
            && (k < |list.data| ==> |ListPdu(opcode, list.len, list.data[..k + 1])| > len)
            && (list.data != [] ==> k > 0)
  {
    var k := Room(|list.data|, list.len, len);
    RoomIsLongest(|list.data|, list.len, len);
    DecListOfListPdu(opcode, list.len, list.data[..k]);
    FlatLength(list.data[..k], list.len);
    if k < |list.data| {
      FlatLength(list.data[..k + 1], list.len);
    }
  }

  /** `enc_read_by_type_resp` cuts long entries, and that is what comes back. */
  lemma ReadByTypeCodec(list: DataList, len: nat)
    requires Uniform(list.data, list.len) && 0 < list.len <= 255 && len > 2
    ensures var l := if len - 2 < list.len then len - 2 else list.len;
            var cut, k := Cut(list.data, l), Room(|list.data|, l, len);
            && DecList(OP_READ_BY_TYPE_RESP, ListPdu(OP_READ_BY_TYPE_RESP, l, cut[..k])) == Some(DataList(l, cut[..k]))
            && |ListPdu(OP_READ_BY_TYPE_RESP, l, cut[..k])| <= len
            && (k < |cut| ==> |ListPdu(OP_READ_BY_TYPE_RESP, l, cut[..k + 1])| > len)
            && (list.data != [] ==> k > 0)
  {
    var l := if len - 2 < list.len then len - 2 else list.len;
    ListCodec(OP_READ_BY_TYPE_RESP, DataList(l, Cut(list.data, l)), len);
  }

  // ---------------------------------------------------------------- requests

  /** `enc_read_req`. */
  function ReadReq(handle: nat): seq<byte> {
    [OP_READ_REQ] + LE16(handle)
  }

  /** `enc_read_blob_req`. */
  function ReadBlobReq(handle: nat, offset: nat): (req: seq<byte>)
    ensures |req| == 5
  {
    [OP_READ_BLOB_REQ] + LE16(handle) + LE16(offset)
  }

  /** `enc_read_by_type_req` with a 16-bit type. */
  function ReadByTypeReq(start: nat, end: nat, uuid16: nat): seq<byte> {
    [OP_READ_BY_TYPE_REQ] + LE16(start) + LE16(end) + LE16(uuid16)
  }

  /** `enc_read_by_grp_req` with a 16-bit type. */
  function ReadByGrpReq(start: nat, end: nat, uuid16: nat): seq<byte> {
    [OP_READ_BY_GROUP_REQ] + LE16(start) + LE16(end) + LE16(uuid16)
  }

  /** `enc_find_by_type_req`. */
  function FindByTypeReq(start: nat, end: nat, uuid16: nat, value: seq<byte>, len: nat): seq<byte>
    requires len >= 7
  {
    [OP_FIND_BY_TYPE_REQ] + LE16(start) + LE16(end) + LE16(uuid16) +
    if |value| > len - 7 then value[..len - 7] else value
  }

  /** `enc_write_req`, and `enc_prep_write_req` and `enc_exec_write_req` for the long form. */
  function WriteReq(handle: nat, value: seq<byte>, len: nat): seq<byte>
    requires len >= 3
  {
    [OP_WRITE_REQ] + LE16(handle) + if |value| > len - 3 then value[..len - 3] else value
  }

  function PrepWriteReq(handle: nat, offset: nat, value: seq<byte>, len: nat): seq<byte>
    requires len >= 5
  {
    [OP_PREP_WRITE_REQ] + LE16(handle) + LE16(offset) + if |value| > len - 5 then value[..len - 5] else value
  }

  function ExecWriteReq(flags: byte): seq<byte> {
    [OP_EXEC_WRITE_REQ, flags]
  }

  // ---------------------------------------------------------------- handle ranges

  /** `struct att_range`. */
  datatype Range = Range(start: nat, end: nat)

  function RangeBytes(r: Range): (s: seq<byte>)
    ensures |s| == 4
  {
    LE16(r.start) + LE16(r.end)
  }

  function RangesBytes(rs: seq<Range>): (s: seq<byte>)
    ensures |s| == 4 * |rs|
  {
    if rs == [] then [] else RangeBytes(rs[0]) + RangesBytes(rs[1..])
  }

  /** Range `i` takes the four bytes at `4 * i`: start and end, the low byte of each first. */
  lemma {:induction false} RangesLayout(rs: seq<Range>, i: nat)
    requires i < |rs| && rs[i].start <= 0xffff && rs[i].end <= 0xffff
    ensures var s := RangesBytes(rs);
            && s[4 * i] as int + 256 * (s[4 * i + 1] as int) == rs[i].start
            && s[4 * i + 2] as int + 256 * (s[4 * i + 3] as int) == rs[i].end
  {
    if i == 0 {
      ByteOrders(rs[0].start);
      ByteOrders(rs[0].end);
    } else {
      RangesLayout(rs[1..], i - 1);
    }
  }

  lemma {:induction false} RangesAppend(rs: seq<Range>, r: Range)
    ensures RangesBytes(rs + [r]) == RangesBytes(rs) + RangeBytes(r)
  {
    if rs == [] {
      assert [r][1..] == [] && rs + [r] == [r];
    } else {
      RangesAppend(rs[1..], r);
      assert (rs + [r])[1..] == rs[1..] + [r] && (rs + [r])[0] == rs[0];
    }
  }

  lemma RangesStep(rs: seq<Range>, i: nat)
    requires i < |rs|
    ensures RangesBytes(rs[..i + 1]) == RangesBytes(rs[..i]) + RangeBytes(rs[i])
  {
    assert rs[..i + 1] == rs[..i] + [rs[i]];
    RangesAppend(rs[..i], rs[i]);
  }

  /** How many ranges fit behind the opcode. */
  function RangeRoom(num: nat, len: nat): (k: nat)
    requires len >= 1
    ensures k <= num && 1 + 4 * k <= len && (k < num ==> 1 + 4 * (k + 1) > len)
  {
    var most := (len - 1) / 4;
    if num <= most then num else most
  }

  /** `enc_find_by_type_resp`. */
  method EncFindByTypeResp(matches: seq<Range>, pdu: array<byte>) returns (offset: nat)
    modifies pdu
    ensures offset == 0 <==> pdu.Length < 5
    ensures offset <= pdu.Length
    ensures offset > 0 ==>
              pdu[..offset] == [OP_FIND_BY_TYPE_RESP] + RangesBytes(matches[..RangeRoom(|matches|, pdu.Length)])
  {
    hide RangeBytes;
    if pdu.Length < 5 {
      return 0;
    }
    pdu[0] := OP_FIND_BY_TYPE_RESP;
    offset := 1;
    var i := 0;
    while i < |matches| && pdu.Length >= offset + 4
      invariant i <= |matches| && offset == 1 + 4 * i <= pdu.Length
      invariant pdu[..offset] == [OP_FIND_BY_TYPE_RESP] + RangesBytes(matches[..i])
    {
      Put(pdu, offset, RangeBytes(matches[i]));
      RangesStep(matches, i);
      assert pdu[..offset + 4] == pdu[..offset] + pdu[offset..offset + 4];
      Assoc([OP_FIND_BY_TYPE_RESP], RangesBytes(matches[..i]), RangeBytes(matches[i]));
      offset := offset + 4;
      i := i + 1;
    }
  }

  function RangesOf(bytes: seq<byte>): seq<Range> {
    if |bytes| < 4 then []
    else [Range(FromLE16(bytes), FromLE16(bytes[2..]))] + RangesOf(bytes[4..])
  }

  /** `dec_find_by_type_resp`; the C result is NULL also when no range is found. */
  function DecFindByType(pdu: seq<byte>): seq<Range> {
    if |pdu| < 5 || pdu[0] != OP_FIND_BY_TYPE_RESP then [] else RangesOf(pdu[1..])
  }

  method DecFindByTypeResp(pdu: seq<byte>) returns (matches: seq<Range>)
    ensures matches == DecFindByType(pdu)
  {
    if |pdu| < 5 || pdu[0] != OP_FIND_BY_TYPE_RESP {
      return [];
    }
    matches := [];
    var offset := 1;
    while |pdu| >= offset + 4
      invariant offset <= |pdu|
      invariant matches + RangesOf(pdu[offset..]) == RangesOf(pdu[1..])
    {
      assert pdu[offset..][2..] == pdu[offset + 2..] && pdu[offset..][4..] == pdu[offset + 4..];
      var range := Range(FromLE16(pdu[offset..]), FromLE16(pdu[offset + 2..]));
      Assoc(matches, [range], RangesOf(pdu[offset + 4..]));
      matches := matches + [range];
      offset := offset + 4;
    }
  }

  predicate ValidRanges(rs: seq<Range>) {
    forall i :: 0 <= i < |rs| ==> rs[i].start < 0x1_0000 && rs[i].end < 0x1_0000
  }

  lemma OneRange(r: Range, rest: seq<byte>)
    requires r.start < 0x1_0000 && r.end < 0x1_0000
    ensures RangesOf(RangeBytes(r) + rest) == [r] + RangesOf(rest)
  {
    var bytes := RangeBytes(r) + rest;
    LE16RoundTrip(r.start, bytes);
    LE16RoundTrip(r.end, bytes[2..]);
    assert bytes[4..] == rest;
  }

  lemma {:induction false} RangesRoundTrip(rs: seq<Range>, rest: seq<byte>)
    requires ValidRanges(rs) && |rest| < 4
    ensures RangesOf(RangesBytes(rs) + rest) == rs
  {
    if rs != [] {
      RangesRoundTrip(rs[1..], rest);
      OneRange(rs[0], RangesBytes(rs[1..]) + rest);
      Assoc(RangeBytes(rs[0]), RangesBytes(rs[1..]), rest);
      assert [rs[0]] + rs[1..] == rs;
    }
  }

  lemma {:induction false} RangesPrefix(rs: seq<Range>, k: nat)
    requires k <= |rs|
    ensures RangesBytes(rs)[..4 * k] == RangesBytes(rs[..k])
    decreases k
  {
    if k > 0 {
      assert rs[1..][..k - 1] == rs[..k][1..];
      RangesPrefix(rs[1..], k - 1);
    }
  }

  /** Whole ranges and a rest shorter than one behind the opcode. */
  lemma DecWhole(rs: seq<Range>, rest: seq<byte>, pdu: seq<byte>)
    requires ValidRanges(rs) && rs != [] && |rest| < 4 && pdu == [OP_FIND_BY_TYPE_RESP] + (RangesBytes(rs) + rest)
    ensures DecFindByType(pdu) == rs
  {
    assert pdu[1..] == RangesBytes(rs) + rest;
    RangesRoundTrip(rs, rest);
  }

  /** Of a range list longer than the read buffer, the whole ranges in front are read back. */
  lemma DecSeenRanges(rs: seq<Range>) returns (k: nat)
    requires ValidRanges(rs) && rs != []
    ensures 0 < k <= |rs| && DecFindByType(Seen([OP_FIND_BY_TYPE_RESP] + RangesBytes(rs))) == rs[..k]
  {
    hide RangesOf, RangesBytes, DecFindByType;
    var bytes := RangesBytes(rs);
    var n := if |bytes| < READ_BUFFER then |bytes| else READ_BUFFER - 1;
    k := n / 4;
    RangesPrefix(rs, k);
    assert bytes[..n] == bytes[..4 * k] + bytes[4 * k..n];
    assert Seen([OP_FIND_BY_TYPE_RESP] + bytes) == [OP_FIND_BY_TYPE_RESP] + bytes[..n];
    DecWhole(rs[..k], bytes[4 * k..n], Seen([OP_FIND_BY_TYPE_RESP] + bytes));
  }

  lemma DecRanges(rs: seq<Range>)
    requires ValidRanges(rs) && rs != []
    ensures DecFindByType([OP_FIND_BY_TYPE_RESP] + RangesBytes(rs)) == rs
  {
    assert RangesBytes(rs) + [] == RangesBytes(rs);
    DecWhole(rs, [], [OP_FIND_BY_TYPE_RESP] + RangesBytes(rs));
  }

  /** For every list of ranges and every PDU size that holds one, decoding the encoded list gives the
      longest prefix that fits. */
  lemma RangeCodec(rs: seq<Range>, len: nat)
    requires ValidRanges(rs) && rs != [] && len >= 5
    ensures var k := RangeRoom(|rs|, len);
            && DecFindByType([OP_FIND_BY_TYPE_RESP] + RangesBytes(rs[..k])) == rs[..k] && k > 0
            && |[OP_FIND_BY_TYPE_RESP] + RangesBytes(rs[..k])| <= len
            && (k < |rs| ==> |[OP_FIND_BY_TYPE_RESP] + RangesBytes(rs[..k + 1])| > len)
  {
    DecRanges(rs[..RangeRoom(|rs|, len)]);
  }
}
