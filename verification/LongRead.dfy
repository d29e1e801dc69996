/** Read Characteristic Value with its long continuation: `gatt_read_char` on the transaction engine. */
module LongRead {
  import opened Bytes
  import opened AttDefs
  import opened AttCodec
  import opened AttRequests
  import opened Engine
  import opened EngineSafety
  import opened Holding
  import opened GAttrib

  /** The result function a command of the procedure carries. */
  datatype Kind = First | Part

  type Data = Option<Kind>

  /** One call of the user's function: status and PDU. */
  datatype Call = Call(status: byte, pdu: seq<byte>)

  /** `struct read_long_data`.  `freed` counts the times it is given back; `calls`, `offsets` (of the blob
      requests), `parts` (their commands) and `since` (the length of the log when the first of them was
      queued) are history. */
  datatype Read = Read(mtu: nat, handle: nat, buffer: seq<byte>, size: nat, id: nat, refs: int,
                       freed: nat, calls: seq<Call>, offsets: seq<nat>, parts: set<nat>, since: nat)

  datatype World = World(eng: State<Data>, rd: Read)

  // ---------------------------------------------------------------- the result functions

  /** `read_long_destroy`. */
  function Drop(rd: Read): Read {
    rd.(refs := rd.refs - 1, freed := if rd.refs - 1 > 0 then rd.freed else rd.freed + 1)
  }

  function Report(rd: Read, status: byte, pdu: seq<byte>): Read {
    rd.(calls := rd.calls + [Call(status, pdu)])
  }

  /** What the user gets of the buffer. */
  function Taken(rd: Read): seq<byte> {
    if rd.size <= |rd.buffer| then rd.buffer[..rd.size] else rd.buffer
  }

  /** The blob request for the bytes behind the buffer, pushed in front of the queue under the id of the
      first request; `pdu` is what is reported with it if it is refused. */
  function Ask(e: State<Data>, rd: Read, pdu: seq<byte>): (State<Data>, Read) {
    var offset := (rd.size + 0xffff) % 0x1_0000;
    var (sent, id) := Send(e, rd.id, ReadBlobReq(rd.handle, offset), true, Some(Part));
    if id != 0 then
      (sent, rd.(refs := rd.refs + 1, offsets := rd.offsets + [offset], parts := rd.parts + {e.accepted}))
    else (sent, Report(rd, ECODE_IO, pdu))
  }

  /** `read_char_helper`. */
  function CharHelper(e: State<Data>, rd: Read, status: byte, rpdu: seq<byte>): (State<Data>, Read) {
    if status != 0 || |rpdu| < rd.mtu then (e, Report(rd, status, rpdu))
    else Ask(e, rd.(buffer := rpdu, size := |rpdu| % 0x1_0000, since := |e.log|), rpdu)
  }

  /** `read_blob_helper`; an error ends the value without being reported. */
  function BlobHelper(e: State<Data>, rd: Read, status: byte, rpdu: seq<byte>): (State<Data>, Read)
    requires status == 0 ==> rpdu != []
  {
    if status != 0 || |rpdu| == 1 then (e, Report(rd, 0, Taken(rd)))
    else
      var grown := rd.(buffer := Taken(rd) + rpdu[1..], size := (rd.size + |rpdu| - 1) % 0x1_0000);
      if |rpdu| < rd.mtu then (e, Report(grown, 0, Taken(grown)))
      else Ask(e, grown, Taken(grown))
  }

  function Helper(e: State<Data>, rd: Read, kind: Kind, status: byte, rpdu: seq<byte>): (State<Data>, Read)
    requires status == 0 ==> rpdu != []
  {
    match kind
    case First => CharHelper(e, rd, status, rpdu)
    case Part => BlobHelper(e, rd, status, rpdu)
  }

  /** `gatt_read_char` on an engine that accepts the request. */
  function Start(e: State<Data>, mtu: nat, handle: nat): World {
    var (sent, id) := Send(e, 0, ReadReq(handle), true, Some(First));
    World(sent, Read(mtu, handle, [], 0, id, 1, 0, [], [], {}, 0))
  }

  // ---------------------------------------------------------------- the procedure among other users

  /** A response that completes the command at the head of the queue. */
  predicate Completes(e: State<Data>, op: Op<Data>) {
    && op.DoReceive? && !e.stale && op.input.Pdu? && op.input.bytes != [] && IsResponse(op.input.bytes[0])
    && e.requests != [] && e.requests[0].data.Some?
  }

  /** The completion of one of our commands: popped, its function run unless it was cancelled, destroyed. */
  function Complete(w: World, bytes: seq<byte>): World
    requires Completes(w.eng, DoReceive(Pdu(bytes)))
  {
    var c := w.eng.requests[0];
    var popped := Receive(w.eng, Pdu(bytes));
    var (e, rd) := if c.live then Helper(popped, w.rd, c.data.value, Status(c, bytes), bytes) else (popped, w.rd);
    World(if e.current.Some? then EndReceive(e) else e, Drop(rd))
  }

  /** `disconnect_timeout` as our commands see it. */
  function Abort(rd: Read, q: seq<Cmd<Data>>, status: byte): Read
    decreases q
  {
    if q == [] then rd
    else
      var c := q[0];
      var ran := if c.data.None? || !c.live then rd
                 else if c.data.value == First then Report(rd, status, []) else Report(rd, 0, Taken(rd));
      Abort(if c.data.Some? then Drop(ran) else ran, q[1..], ECODE_ABORTED)
  }

  /** `n` of our commands destroyed without being run. */
  function DropN(rd: Read, n: nat): Read
    decreases n
  {
    if n == 0 then rd else DropN(Drop(rd), n - 1)
  }

  function Minus(a: nat, b: nat): nat {
    if a > b then a - b else 0
  }

  /** Any step of the engine, with what it does to our procedure. */
  function WorldStep(w: World, op: Op<Data>): World
    requires Enabled(w.eng, op)
  {
    if Completes(w.eng, op) then Complete(w, op.input.bytes)
    else
      var e := Step(w.eng, op);
      if op.DoTimeout? then World(e, Abort(w.rd, w.eng.requests, ECODE_TIMEOUT))
      else if op.DoCancel? || op.DoCancelAll? then
        World(e, DropN(w.rd, Minus(|Mine(w.eng.requests)|, |Mine(e.requests)|)))
      else World(e, w.rd)
  }

  /** Other users send commands of their own. */
  predicate WorldEnabled(w: World, op: Op<Data>) {
    Enabled(w.eng, op) && (op.DoSend? ==> op.data == None)
  }

  /** An engine in any reachable state without commands of ours that accepts the first request. */
  ghost predicate Ready(e: State<Data>) {
    && Inv(e) && !e.stale && NextId(e.lastId) != 0
    && Mine(e.requests) == [] && Mine(e.responses) == []
    && (e.current.Some? ==> e.current.value.data == None)
  }

  predicate IsStep(w: World, op: Op<Data>, w1: World) {
    WorldEnabled(w, op) && w1 == WorldStep(w, op)
  }

  ghost predicate AreSteps(worlds: seq<World>, ops: seq<Op<Data>>) {
    && |worlds| == |ops| + 1
    && forall i, j :: 0 <= i && j == i + 1 < |worlds| ==> IsStep(worlds[i], ops[i], worlds[j])
  }

  /** A run from the start of the read on. */
  ghost predicate IsReadRun(worlds: seq<World>, ops: seq<Op<Data>>, mtu: nat, handle: nat) {
    AreSteps(worlds, ops) && exists e :: Ready(e) && worlds[0] == Start(e, mtu, handle)
  }

  // ---------------------------------------------------------------- what every run keeps

  predicate OpcodeOf(c: Cmd<Data>) {
    c.data.Some? ==> Opcode(c) == if c.data.value == First then OP_READ_REQ else OP_READ_BLOB_REQ
  }

  /** A command of ours has the id of the first, is not live once the user was called, and is known. */
  predicate OurCmd(c: Cmd<Data>, rd: Read) {
    c.data.Some? ==>
      && c.id == rd.id && OpcodeOf(c)
      && (c.live ==> rd.calls == [])
      && (c.data.value == Part ==> c.uid in rd.parts)
  }

  /** A blob request is at the head of the queue, and no completion is in progress. */
  ghost predicate OursQueued(w: World) {
    && (forall i :: 0 <= i < |w.eng.requests| ==> OurCmd(w.eng.requests[i], w.rd))
    && (Mine(w.eng.requests) == [Part] ==>
          w.eng.requests != [] && w.eng.requests[0].data == Some(Part) && w.eng.current.None?)
  }

  /** Since the first blob request was queued, only responses and blob requests of ours were written. */
  ghost predicate NoSlip(w: World) {
    Mine(w.eng.requests) == [Part] ==>
      && w.rd.since <= |w.eng.log|
      && forall j :: w.rd.since <= j < |w.eng.log| && w.eng.log[j].Wrote? ==>
           IsResponse(w.eng.log[j].opcode) || w.eng.log[j].uid in w.rd.parts
  }

  ghost predicate Counted(w: World) {
    && Mine(w.eng.responses) == [] && (w.eng.current.Some? ==> w.eng.current.value.data == None)
    && |Mine(w.eng.requests)| == w.rd.refs <= 1
    && w.rd.freed == (if w.rd.refs == 0 then 1 else 0)
    && |w.rd.calls| <= 1 && (forall c <- w.rd.calls :: |c.pdu| <= 0xffff)
    && w.rd.id != 0 && w.rd.size <= |w.rd.buffer| && w.rd.size <= 0xffff
  }

  ghost predicate Held(w: World) {
    Counted(w) && OursQueued(w) && NoSlip(w)
  }

  lemma FirstInv(e: State<Data>, handle: nat) returns (e1: State<Data>)
    requires Inv(e)
    ensures e1 == Send(e, 0, ReadReq(handle), true, Some(First)).0 && Inv(e1)
  {
    SendInv(e, 0, ReadReq(handle), true, Some(First));
    e1 := Send(e, 0, ReadReq(handle), true, Some(First)).0;
  }

  lemma StartShape(e: State<Data>, mtu: nat, handle: nat) returns (w: World, c: Cmd<Data>)
    requires Mine(e.requests) == [] && !e.stale
    ensures w == Start(e, mtu, handle) && w.eng.requests == e.requests + [c]
    ensures c.data == Some(First) && c.live && c.pdu == ReadReq(handle) && c.id == NextId(e.lastId)
    ensures w.rd == Read(mtu, handle, [], 0, c.id, 1, 0, [], [], {}, 0)
    ensures w.eng.responses == e.responses && w.eng.current == e.current
    ensures Mine(w.eng.requests) == [First] && forall i :: 0 <= i < |e.requests| ==> e.requests[i].data.None?
  {
    w := Start(e, mtu, handle);
    c := w.eng.requests[|e.requests|];
    MineAdd(e.requests, c);
    MineNone(e.requests);
    assert [] + [First] == [First];
  }

  lemma StartHeld(e: State<Data>, mtu: nat, handle: nat) returns (w: World)
    requires Ready(e)
    ensures w == Start(e, mtu, handle) && Inv(w.eng) && Held(w)
  {
    var e1 := FirstInv(e, handle);
    var c;
    w, c := StartShape(e, mtu, handle);
    assert [First][0] != Part;
  }

  /** Right after one of our commands was popped, while its function runs. */
  ghost predicate Popped1(e: State<Data>, rd: Read) {
    && Mine(e.requests) == [] && Mine(e.responses) == [] && !e.stale
    && rd.refs == 1 && rd.freed == 0 && rd.calls == [] && rd.id != 0
    && rd.size <= |rd.buffer| && rd.size <= 0xffff
  }

  /** After its function has returned. */
  ghost predicate Helped(e: State<Data>, e1: State<Data>, rd: Read) {
    && Mine(e1.responses) == [] && |Mine(e1.requests)| == rd.refs - 1 <= 1
    && rd.freed == 0 && rd.id != 0 && rd.size <= |rd.buffer| && rd.size <= 0xffff
    && |rd.calls| <= 1 && (forall c <- rd.calls :: |c.pdu| <= 0xffff)
    && OursQueued(World(e1.(current := None), rd))
    && (rd.refs == 1 || (Mine(e1.requests) == [Part] && rd.since <= |e.log| <= |e1.log| && e1.log[..|e.log|] == e.log
                         && forall j :: |e.log| <= j < |e1.log| ==> !e1.log[j].Wrote?))
  }

  /** What an accepted blob request changes. */
  lemma AskShape(e: State<Data>, rd: Read, pdu: seq<byte>) returns (e1: State<Data>, rd1: Read, c: Cmd<Data>)
    requires !e.stale && rd.id != 0
    ensures (e1, rd1) == Ask(e, rd, pdu)
    ensures c.data == Some(Part) && c.live && !c.sent && c.id == rd.id && c.uid == e.accepted
    ensures c.pdu == ReadBlobReq(rd.handle, (rd.size + 0xffff) % 0x1_0000)
    ensures e1.requests == [c] + e.requests && e1.responses == e.responses && e1.current == e.current
    ensures e1.log == e.log + [Accepted(e.accepted, true)]
    ensures rd1 == rd.(refs := rd.refs + 1, offsets := rd.offsets + [(rd.size + 0xffff) % 0x1_0000],
                       parts := rd.parts + {e.accepted})
  {
    c := Cmd(e.accepted, rd.id, ReadBlobReq(rd.handle, (rd.size + 0xffff) % 0x1_0000), false, true, Some(Part));
    var result := Ask(e, rd, pdu);
    e1, rd1 := result.0, result.1;
  }

  lemma AskHelped(e: State<Data>, rd: Read, pdu: seq<byte>) returns (e1: State<Data>, rd1: Read)
    requires Popped1(e, rd) && rd.since <= |e.log|
    ensures (e1, rd1) == Ask(e, rd, pdu)
    ensures Helped(e, e1, rd1) && rd.parts <= rd1.parts && rd1.since == rd.since && e1.current == e.current
  {
    hide Ask;
    var c;
    e1, rd1, c := AskShape(e, rd, pdu);
    MineAdd(e.requests, c);
    MineNone(e.requests);
  }

  lemma ReportHelped(e: State<Data>, rd: Read, status: byte, pdu: seq<byte>)
    requires Popped1(e, rd) && |pdu| <= 0xffff
    ensures Helped(e, e, Report(rd, status, pdu))
  {
    MineNone(e.requests);
  }

  lemma HelperHelped(e: State<Data>, rd: Read, kind: Kind, status: byte, rpdu: seq<byte>)
    returns (e1: State<Data>, rd1: Read)
    requires Popped1(e, rd) && |rpdu| <= READ_BUFFER && (status == 0 ==> rpdu != [])
    requires kind == Part ==> rd.since <= |e.log|
    ensures (e1, rd1) == Helper(e, rd, kind, status, rpdu)
    ensures Helped(e, e1, rd1) && rd.parts <= rd1.parts && e1.current == e.current
    ensures kind == Part ==> rd1.since == rd.since
    ensures kind == First && rd1.refs == 2 ==> rd1.since == |e.log|
  {
    hide Ask;
    if kind == First {
      if status == 0 && |rpdu| >= rd.mtu {
        e1, rd1 := AskHelped(e, rd.(buffer := rpdu, size := |rpdu| % 0x1_0000, since := |e.log|), rpdu);
      } else {
        ReportHelped(e, rd, status, rpdu);
        e1, rd1 := e, Report(rd, status, rpdu);
      }
    } else if status == 0 && |rpdu| != 1 {
      var grown := rd.(buffer := Taken(rd) + rpdu[1..], size := (rd.size + |rpdu| - 1) % 0x1_0000);
      if |rpdu| >= rd.mtu {
        e1, rd1 := AskHelped(e, grown, Taken(grown));
      } else {
        ReportHelped(e, grown, 0, Taken(grown));
        e1, rd1 := e, Report(grown, 0, Taken(grown));
      }
    } else {
      ReportHelped(e, rd, 0, Taken(rd));
      e1, rd1 := e, Report(rd, 0, Taken(rd));
    }
  }

  lemma PopOurs(w: World, bytes: seq<byte>) returns (popped: State<Data>)
    requires Held(w) && WorldEnabled(w, DoReceive(Pdu(bytes))) && Completes(w.eng, DoReceive(Pdu(bytes)))
    ensures popped == Receive(w.eng, Pdu(bytes)) && popped.current == Some(w.eng.requests[0])
    ensures w.eng.requests[0].live ==> Popped1(popped, w.rd)
    ensures Mine(popped.requests) == [] && Mine(w.eng.requests) == [w.eng.requests[0].data.value]
    ensures |w.eng.log| <= |popped.log| && popped.log[..|w.eng.log|] == w.eng.log
    ensures forall j :: |w.eng.log| <= j < |popped.log| ==> !popped.log[j].Wrote?
  {
    popped := Receive(w.eng, Pdu(bytes));
    MineHead(w.eng.requests);
    MineOne(w.eng.requests[0]);
  }

  lemma FinishHeld(w: World, popped: State<Data>, e: State<Data>, rd: Read)
    requires Held(w) && Helped(popped, e, rd) && w.rd.parts <= rd.parts
    requires |w.eng.log| <= |popped.log| && popped.log[..|w.eng.log|] == w.eng.log
    requires forall j :: |w.eng.log| <= j < |popped.log| ==> !popped.log[j].Wrote?
    requires Mine(w.eng.requests) == [Part] ==> rd.since == w.rd.since
    requires Mine(w.eng.requests) == [First] && rd.refs == 2 ==> rd.since == |popped.log|
    requires e.current.Some? && w.rd.refs == 1 && |Mine(w.eng.requests)| == 1
    ensures Held(World(EndReceive(e), Drop(rd)))
  {
    var z := World(EndReceive(e), Drop(rd));
    assert OursQueued(z) by {
      assert OursQueued(World(e.(current := None), rd));
    }
    if Mine(z.eng.requests) == [Part] {
      var log := z.eng.log;
      assert forall j :: 0 <= j < |popped.log| ==> log[j] == popped.log[j];
      assert forall j :: 0 <= j < |w.eng.log| ==> log[j] == w.eng.log[j];
      assert Mine(w.eng.requests)[0] == First || Mine(w.eng.requests)[0] == Part;
      assert NoSlip(w);
    }
  }

  lemma CompleteHeld(w: World, bytes: seq<byte>)
    requires Held(w) && WorldEnabled(w, DoReceive(Pdu(bytes))) && Completes(w.eng, DoReceive(Pdu(bytes)))
    ensures Held(Complete(w, bytes))
  {
    var c := w.eng.requests[0];
    var popped := PopOurs(w, bytes);
    if c.live {
      var e, rd := HelperHelped(popped, w.rd, c.data.value, Status(c, bytes), bytes);
      FinishHeld(w, popped, e, rd);
      assert Complete(w, bytes) == World(EndReceive(e), Drop(rd));
    } else {
      MineNone(popped.requests);
    }
  }

  /** What steps that do not complete, cancel or abort a command of ours leave as it was. */
  ghost predicate Untouched(w: World, e: State<Data>) {
    && Mine(e.requests) == Mine(w.eng.requests) && Mine(e.responses) == []
    && (e.current.Some? ==> e.current.value.data == None)
    && (forall i :: 0 <= i < |e.requests| ==> OurCmd(e.requests[i], w.rd))
    && (Mine(e.requests) == [Part] ==> e.requests != [] && e.requests[0].data == Some(Part) && e.current.None?)
    && |w.eng.log| <= |e.log| && e.log[..|w.eng.log|] == w.eng.log
    && (Mine(e.requests) == [Part] ==>
          forall j :: |w.eng.log| <= j < |e.log| && e.log[j].Wrote? ==>
            IsResponse(e.log[j].opcode) || e.log[j].uid in w.rd.parts)
  }

  lemma UntouchedHeld(w: World, e: State<Data>)
    requires Held(w) && Untouched(w, e)
    ensures Held(World(e, w.rd))
  {
    assert forall j :: 0 <= j < |w.eng.log| ==> e.log[j] == w.eng.log[j];
  }

  lemma SendHeld(w: World, id: nat, pdu: seq<byte>, live: bool)
    requires Held(w) && !w.eng.stale && WorldEnabled(w, DoSend(id, pdu, live, None))
    ensures Untouched(w, Send(w.eng, id, pdu, live, None).0)
  {
    hide Send, IsResponse;
    var e1, c := OthersSend(w.eng, id, pdu, live);
    assert OurCmd(c, w.rd);
  }

  /** A response written or destroyed, or the watch lost. */
  lemma ResponsesHeld(w: World, responses: seq<Cmd<Data>>, e1: State<Data>)
    requires Held(w) && e1.responses == responses && e1.requests == w.eng.requests && e1.current == w.eng.current
    requires |w.eng.log| <= |e1.log| && e1.log[..|w.eng.log|] == w.eng.log
    requires forall j :: |w.eng.log| <= j < |e1.log| && e1.log[j].Wrote? ==> IsResponse(e1.log[j].opcode)
    requires forall i :: 0 <= i < |responses| ==> responses[i].data.None?
    ensures Held(World(e1, w.rd))
  {
    MineNone(responses);
    UntouchedHeld(w, e1);
  }

  /** Our requests are answered. */
  lemma OursExpect(c: Cmd<Data>, rd: Read)
    requires OurCmd(c, rd) && c.data.Some?
    ensures Expected(Opcode(c)) != 0
  {
  }

  lemma WriteHeadMine(w: World)
    requires Held(w) && w.eng.responses == [] && w.eng.requests != []
    ensures Mine(Write(w.eng, false, true).requests) == Mine(w.eng.requests)
  {
    hide Expected, IsResponse, OpcodeOf;
    var e, c := w.eng, w.eng.requests[0];
    assert OurCmd(c, w.rd);
    if c.data.Some? {
      OursExpect(c, w.rd);
    }
    MineUpdate(e.requests, c.(sent := true));
    MineAdd(e.requests[1..], c);
    assert e.requests == [c] + e.requests[1..];
  }

  /** A head of others is written and gone. */
  lemma OthersWritten(w: World, e1: State<Data>)
    requires Held(w) && w.eng.requests != [] && w.eng.requests[0].data.None? && w.eng.log <= e1.log
    requires e1.responses == w.eng.responses && e1.current == w.eng.current && e1.requests == w.eng.requests[1..]
    ensures Held(World(e1, w.rd))
  {
    hide OurCmd;
    MineAdd(w.eng.requests[1..], w.eng.requests[0]);
    assert w.eng.requests == [w.eng.requests[0]] + w.eng.requests[1..];
    UntouchedHeld(w, e1);
  }

  /** A head is marked as sent; what is written while a part of ours is queued is that part. */
  lemma HeadMarked(w: World, e1: State<Data>)
    requires Held(w) && w.eng.requests != []
    requires e1.responses == w.eng.responses && e1.current == w.eng.current
    requires var c := w.eng.requests[0];
             e1.requests == w.eng.requests[0 := c.(sent := true)] && e1.log == w.eng.log + [Wrote(c.uid, Opcode(c))]
    ensures Held(World(e1, w.rd))
  {
    hide IsResponse, Expected;
    assert OurCmd(w.eng.requests[0], w.rd);
    MineUpdate(w.eng.requests, w.eng.requests[0].(sent := true));
    UntouchedHeld(w, e1);
  }

  lemma WriteHead(w: World)
    requires Held(w) && w.eng.responses == [] && w.eng.requests != []
    ensures Held(World(Write(w.eng, false, true), w.rd))
  {
    hide Write, Expected, Held, Untouched, OurCmd;
    var e1 := WriteShape(w.eng);
    var c := w.eng.requests[0];
    if w.eng.stale || c.sent {
      SameHeld(w, e1);
    } else if Expected(Opcode(c)) == 0 {
      OursAtHead(w);
      OthersWritten(w, e1);
    } else {
      HeadMarked(w, e1);
    }
  }

  lemma OursAtHead(w: World)
    requires Held(w) && w.eng.requests != []
    ensures Expected(Opcode(w.eng.requests[0])) == 0 ==> w.eng.requests[0].data.None?
  {
    assert OurCmd(w.eng.requests[0], w.rd);
  }

  lemma SameHeld(w: World, e1: State<Data>)
    requires Held(w) && e1.requests == w.eng.requests && e1.responses == w.eng.responses
    requires e1.current == w.eng.current && e1.log == w.eng.log
    ensures Held(World(e1, w.rd))
  {
  }

  lemma WriteHeld(w: World, hup: bool, ok: bool)
    requires Held(w) && OneSent(w.eng) && WorldEnabled(w, DoWrite(hup, ok))
    ensures Held(World(Write(w.eng, hup, ok), w.rd))
  {
    var e, e1 := w.eng, Write(w.eng, hup, ok);
    MineNone(e.responses);
    if e.responses != [] {
      assert IsResponse(Opcode(e.responses[0]));
      ResponsesHeld(w, e1.responses, e1);
    } else if e.requests != [] && !hup && ok {
      WriteHead(w);
    } else {
      ResponsesHeld(w, e1.responses, e1);
    }
  }

  lemma ReceiveHeld(w: World, input: Input)
    requires Held(w) && WorldEnabled(w, DoReceive(input)) && !Completes(w.eng, DoReceive(input))
    ensures Untouched(w, Receive(w.eng, input))
  {
    hide Receive, IsResponse;
    var e1 := OthersReceive(w.eng, input);
  }

  /** All commands of ours are gone. */
  lemma GoneHeld(e: State<Data>, rd: Read)
    requires Mine(e.requests) == [] && Mine(e.responses) == [] && (e.current.Some? ==> e.current.value.data == None)
    requires rd.refs == 0 && rd.freed == 1 && |rd.calls| <= 1 && (forall c <- rd.calls :: |c.pdu| <= 0xffff)
    requires rd.id != 0 && rd.size <= |rd.buffer| && rd.size <= 0xffff
    ensures Held(World(e, rd))
  {
    MineNone(e.requests);
  }

  /** A head that loses its function keeps its place. */
  lemma QuietHeld(w: World, e1: State<Data>, log: seq<Event>)
    requires Held(w) && Quiet(log) && e1.log == w.eng.log + log && e1.current == w.eng.current
    requires Mine(e1.requests) == Mine(w.eng.requests) && Mine(e1.responses) == [] && w.eng.requests != []
    requires e1.requests != [] && e1.requests[0] == w.eng.requests[0].(live := false)
    requires forall i :: 1 <= i < |e1.requests| ==> OurCmd(e1.requests[i], w.rd)
    ensures Held(World(e1, w.rd))
  {
    assert OurCmd(w.eng.requests[0], w.rd);
    forall j | |w.eng.log| <= j < |e1.log| ensures !e1.log[j].Wrote? {
      assert e1.log[j] == log[j - |w.eng.log|] && e1.log[j] in log;
    }
    UntouchedHeld(w, e1);
  }

  lemma SilencedHeld(w: World, log: seq<Event>) returns (w1: World)
    requires Held(w) && w.eng.requests != [] && Quiet(log)
    ensures var q := w.eng.requests;
            var e1 := w.eng.(requests := q[0 := q[0].(live := false)], log := w.eng.log + log);
            w1 == World(e1, DropN(w.rd, Minus(|Mine(w.eng.requests)|, |Mine(e1.requests)|)))
    ensures Held(w1)
  {
    var c := w.eng.requests[0];
    var e1 := w.eng.(requests := w.eng.requests[0 := c.(live := false)], log := w.eng.log + log);
    w1 := World(e1, w.rd);
    MineUpdate(w.eng.requests, c.(live := false));
    QuietHeld(w, e1, log);
  }

  lemma RemovedHeld(w: World, i: nat) returns (w1: World)
    requires Held(w) && i < |w.eng.requests|
    ensures var q := w.eng.requests;
            var e1 := w.eng.(requests := Without(q, i), log := w.eng.log + [Destroyed(q[i].uid)]);
            w1 == World(e1, DropN(w.rd, Minus(|Mine(w.eng.requests)|, |Mine(e1.requests)|)))
    ensures Held(w1)
  {
    var e, c := w.eng, w.eng.requests[i];
    var e1 := e.(requests := Without(e.requests, i), log := e.log + [Destroyed(c.uid)]);
    w1 := World(e1, DropN(w.rd, Minus(|Mine(e.requests)|, |Mine(e1.requests)|)));
    MineWithout(e.requests, i);
    if c.data.Some? {
      GoneHeld(e1, Drop(w.rd));
      assert DropN(Drop(w.rd), 0) == Drop(w.rd);
    } else {
      UntouchedHeld(w, e1);
    }
  }

  lemma CancelHeld(w: World, id: nat) returns (w1: World)
    requires Held(w) && OneSent(w.eng)
    ensures w1 == WorldStep(w, DoCancel(id)) && Held(w1)
  {
    hide IndexOf, Without, Untouched;
    var e := w.eng;
    var i := IndexOf(e.requests, id);
    if i < |e.requests| {
      if i == 0 && e.requests[0].sent {
        w1 := SilencedHeld(w, [Silenced(e.requests[0].uid)]);
      } else {
        w1 := RemovedHeld(w, i);
      }
    } else {
      w1 := World(Cancel(e, id).0, w.rd);
      CancelResponseHeld(w, id);
    }
  }

  lemma ResponsesNone(w: World)
    requires Held(w)
    ensures forall i :: 0 <= i < |w.eng.responses| ==> w.eng.responses[i].data.None?
  {
    MineNone(w.eng.responses);
  }

  lemma CancelResponseHeld(w: World, id: nat)
    requires Held(w) && IndexOf(w.eng.requests, id) == |w.eng.requests|
    ensures Held(World(Cancel(w.eng, id).0, w.rd))
  {
    hide IndexOf, Held;
    var e1 := Cancel(w.eng, id).0;
    ResponsesNone(w);
    ResponsesHeld(w, e1.responses, e1);
  }

  lemma CancelAllHeld(w: World) returns (w1: World)
    requires Held(w) && OneSent(w.eng)
    ensures w1 == WorldStep(w, DoCancelAll) && Held(w1)
  {
    var e, e1 := w.eng, CancelAll(w.eng);
    w1 := World(e1, DropN(w.rd, Minus(|Mine(e.requests)|, |Mine(e1.requests)|)));
    CancelQueueMine(e.requests);
    CancelQueueMine(e.responses);
    if HeadSent(e) && e.requests[0].data.Some? {
      MineAt(e.requests, 0);
      MineOne(e.requests[0]);
      CancelAllSent(w, e1);
    } else {
      if HeadSent(e) {
        MineOne(e.requests[0]);
      }
      CancelledRest(w, e1, w1);
    }
  }

  /** A single command of ours is what the queue carries. */
  lemma MineAt(q: seq<Cmd<Data>>, i: nat)
    requires |Mine(q)| <= 1 && i < |q| && q[i].data.Some?
    ensures Mine(q) == [q[i].data.value]
  {
    assert q == q[..i] + ([q[i]] + q[i + 1..]);
    MineOne(q[i]);
    MineConcat([q[i]], q[i + 1..]);
    MineConcat(q[..i], [q[i]] + q[i + 1..]);
  }

  lemma CancelAllSent(w: World, e1: State<Data>)
    requires Held(w) && HeadSent(w.eng) && w.eng.requests[0].data.Some? && e1 == CancelAll(w.eng)
    requires Mine(e1.requests) == Mine(w.eng.requests) && Mine(e1.responses) == []
    requires Quiet(CancelQueue(w.eng.requests).1) && Quiet(CancelQueue(w.eng.responses).1)
    ensures Held(World(e1, w.rd))
  {
    var e := w.eng;
    var log := CancelQueue(e.requests).1 + CancelQueue(e.responses).1;
    Assoc(e.log, CancelQueue(e.requests).1, CancelQueue(e.responses).1);
    assert e1.requests == [e.requests[0].(live := false)] && e1.log == e.log + log && Quiet(log);
    QuietHeld(w, e1, log);
  }

  lemma CancelledRest(w: World, e1: State<Data>, w1: World)
    requires Held(w) && Mine(e1.requests) == [] && Mine(e1.responses) == [] && e1.current == w.eng.current
    requires w1 == World(e1, DropN(w.rd, |Mine(w.eng.requests)|))
    ensures Held(w1)
  {
    if |Mine(w.eng.requests)| == 1 {
      assert DropN(Drop(w.rd), 0) == Drop(w.rd);
    }
    GoneHeld(e1, w1.rd);
  }

  lemma {:induction false} AbortCount(rd: Read, q: seq<Cmd<Data>>, status: byte)
    requires |Mine(q)| <= 1 && |rd.calls| <= 1 && (forall c <- rd.calls :: |c.pdu| <= 0xffff) && rd.size <= 0xffff
    requires forall i :: 0 <= i < |q| ==> OurCmd(q[i], rd)
    requires rd.refs == |Mine(q)| && rd.freed == (if rd.refs == 0 then 1 else 0)
    ensures var end := Abort(rd, q, status);
            && end.refs == 0 && end.freed == 1 && |end.calls| <= 1 && (forall c <- end.calls :: |c.pdu| <= 0xffff)
            && end.id == rd.id && end.size == rd.size && end.buffer == rd.buffer
    decreases q
  {
    if q != [] {
      var c := q[0];
      var ran := if c.data.None? || !c.live then rd
                 else if c.data.value == First then Report(rd, status, []) else Report(rd, 0, Taken(rd));
      MineHead(q);
      MineOne(c);
      MineNone(q[1..]);
      AbortCount(if c.data.Some? then Drop(ran) else ran, q[1..], ECODE_ABORTED);
    }
  }

  lemma TimeoutHeld(w: World) returns (w1: World)
    requires Held(w) && WorldEnabled(w, DoTimeout)
    ensures w1 == WorldStep(w, DoTimeout) && Held(w1)
  {
    var e1 := Timeout(w.eng);
    w1 := World(e1, Abort(w.rd, w.eng.requests, ECODE_TIMEOUT));
    AbortCount(w.rd, w.eng.requests, ECODE_TIMEOUT);
    GoneHeld(e1, w1.rd);
  }

  lemma SentHeld(w: World, id: nat, pdu: seq<byte>, live: bool)
    requires Held(w) && WorldEnabled(w, DoSend(id, pdu, live, None))
    ensures Held(World(Send(w.eng, id, pdu, live, None).0, w.rd))
  {
    hide IsResponse, NextId, Untouched, Held;
    if !w.eng.stale {
      SendHeld(w, id, pdu, live);
      UntouchedHeld(w, Send(w.eng, id, pdu, live, None).0);
    }
  }

  lemma EndHeld(w: World)
    requires Held(w) && w.eng.current.Some?
    ensures Held(World(EndReceive(w.eng), w.rd))
  {
    UntouchedHeld(w, EndReceive(w.eng));
  }

  lemma WorldStepHeld(w: World, op: Op<Data>)
    requires Held(w) && OneSent(w.eng) && WorldEnabled(w, op)
    ensures Held(WorldStep(w, op))
  {
    hide Held, OneSent, Send, Write, Receive, EndReceive, Timeout, Cancel, CancelAll, Untouched;
    if Completes(w.eng, op) {
      CompleteHeld(w, op.input.bytes);
    } else {
      match op
      case DoSend(id, pdu, live, data) =>
        SentHeld(w, id, pdu, live);
      case DoWrite(hup, ok) => WriteHeld(w, hup, ok);
      case DoReceive(input) =>
        ReceiveHeld(w, input);
        UntouchedHeld(w, Receive(w.eng, input));
      case DoEndReceive => EndHeld(w);
      case DoTimeout => var w1 := TimeoutHeld(w);
      case DoCancel(id) => var w1 := CancelHeld(w, id);
      case DoCancelAll => var w1 := CancelAllHeld(w);
    }
  }

  /** The blob request is pushed in front of the queue from inside a result function, where the engine
      allows it: its invariant holds throughout. */
  lemma AskInv(e: State<Data>, rd: Read, pdu: seq<byte>) returns (e1: State<Data>)
    requires Inv(e) && e.current.Some?
    ensures e1 == Ask(e, rd, pdu).0 && Inv(e1) && e1.current == e.current
  {
    e1 := Pushed(e, rd.id, ReadBlobReq(rd.handle, (rd.size + 0xffff) % 0x1_0000));
  }

  lemma Pushed(e: State<Data>, id: nat, req: seq<byte>) returns (e1: State<Data>)
    requires Inv(e) && e.current.Some? && req != []
    ensures e1 == Send(e, id, req, true, Some(Part)).0 && Inv(e1) && e1.current == e.current
  {
    SendInv(e, id, req, true, Some(Part));
    e1 := Send(e, id, req, true, Some(Part)).0;
  }

  lemma BlobTaken(e: State<Data>, rd: Read, bytes: seq<byte>, grown: Read)
    requires |bytes| > 1 && grown == rd.(buffer := Taken(rd) + bytes[1..], size := (rd.size + |bytes| - 1) % 0x1_0000)
    ensures BlobHelper(e, rd, 0, bytes) ==
            if |bytes| < rd.mtu then (e, Report(grown, 0, Taken(grown))) else Ask(e, grown, Taken(grown))
  {
  }

  lemma CharInv(e: State<Data>, rd: Read, status: byte, rpdu: seq<byte>) returns (e1: State<Data>)
    requires Inv(e) && e.current.Some?
    ensures e1 == CharHelper(e, rd, status, rpdu).0 && Inv(e1) && e1.current == e.current
  {
    e1 := e;
    if status == 0 && |rpdu| >= rd.mtu {
      e1 := AskInv(e, rd.(buffer := rpdu, size := |rpdu| % 0x1_0000, since := |e.log|), rpdu);
    }
  }

  lemma BlobInv(e: State<Data>, rd: Read, status: byte, rpdu: seq<byte>) returns (e1: State<Data>)
    requires Inv(e) && e.current.Some? && (status == 0 ==> rpdu != [])
    ensures e1 == BlobHelper(e, rd, status, rpdu).0 && Inv(e1) && e1.current == e.current
  {
    e1 := e;
    if status == 0 && |rpdu| > 1 {
      var grown := rd.(buffer := Taken(rd) + rpdu[1..], size := (rd.size + |rpdu| - 1) % 0x1_0000);
      BlobTaken(e, rd, rpdu, grown);
      if |rpdu| >= rd.mtu {
        e1 := AskInv(e, grown, Taken(grown));
      }
    }
  }

  lemma HelperInv(e: State<Data>, rd: Read, kind: Kind, status: byte, rpdu: seq<byte>) returns (e1: State<Data>)
    requires Inv(e) && e.current.Some? && (status == 0 ==> rpdu != [])
    ensures e1 == Helper(e, rd, kind, status, rpdu).0 && Inv(e1) && e1.current == e.current
  {
    if kind == First {
      e1 := CharInv(e, rd, status, rpdu);
    } else {
      e1 := BlobInv(e, rd, status, rpdu);
    }
  }

  lemma WorldStepInv(w: World, op: Op<Data>)
    requires Inv(w.eng) && WorldEnabled(w, op)
    ensures Inv(WorldStep(w, op).eng)
  {
    if Completes(w.eng, op) {
      var c, bytes := w.eng.requests[0], op.input.bytes;
      var popped := Receive(w.eng, op.input);
      ReceiveInv(w.eng, op.input);
      var e := popped;
      if c.live {
        e := HelperInv(popped, w.rd, c.data.value, Status(c, bytes), bytes);
      }
      EndReceiveInv(e);
    } else {
      StepInv(w.eng, op);
    }
  }

  ghost predicate Kept(w: World) {
    Inv(w.eng) && Held(w)
  }

  lemma StepKept(w: World, op: Op<Data>) returns (w1: World)
    requires Kept(w) && WorldEnabled(w, op)
    ensures w1 == WorldStep(w, op) && Kept(w1)
  {
    w1 := WorldStep(w, op);
    WorldStepInv(w, op);
    WorldStepHeld(w, op);
  }

  lemma {:induction false} StepsKept(worlds: seq<World>, ops: seq<Op<Data>>, i: nat)
    requires AreSteps(worlds, ops) && i < |worlds| && Kept(worlds[0])
    ensures Kept(worlds[i])
  {
    if i > 0 {
      StepsKept(worlds, ops, i - 1);
      assert IsStep(worlds[i - 1], ops[i - 1], worlds[i]);
      var next := StepKept(worlds[i - 1], ops[i - 1]);
    }
  }

  lemma RunHeld(worlds: seq<World>, ops: seq<Op<Data>>, mtu: nat, handle: nat, i: nat)
    requires IsReadRun(worlds, ops, mtu, handle) && i < |worlds|
    ensures Inv(worlds[i].eng) && Held(worlds[i])
  {
    var e :| Ready(e) && worlds[0] == Start(e, mtu, handle);
    var w := StartHeld(e, mtu, handle);
    StepsKept(worlds, ops, i);
  }

  lemma RunKeeps(worlds: seq<World>, ops: seq<Op<Data>>, mtu: nat, handle: nat, i: nat)
    requires IsReadRun(worlds, ops, mtu, handle) && i < |worlds|
    ensures OneSent(worlds[i].eng) && Held(worlds[i])
  {
    RunHeld(worlds, ops, mtu, handle, i);
  }

  /** In every state of every run, whatever the peer answers and the other users send, cancel or let time
      out: the reference count is the number of queued commands of the procedure, the shared state is freed
      exactly once, when it reaches zero, the user is called at most once, and every command of the
      procedure has the id the caller was given. */
  lemma SharedStateFreedOnce(worlds: seq<World>, ops: seq<Op<Data>>, mtu: nat, handle: nat, i: nat)
    requires IsReadRun(worlds, ops, mtu, handle) && i < |worlds|
    ensures var w := worlds[i];
            && w.rd.refs == |Mine(w.eng.requests)| + |Mine(w.eng.responses)|
            && w.rd.freed == (if w.rd.refs == 0 then 1 else 0)
            && |w.rd.calls| <= 1
            && forall j :: 0 <= j < |w.eng.requests| && w.eng.requests[j].data.Some? ==> w.eng.requests[j].id == w.rd.id
  {
    RunKeeps(worlds, ops, mtu, handle, i);
  }

  /** While a blob request is queued it is the head of the queue, and nothing but responses and blob
      requests of this procedure has been written since the first of them was queued. */
  lemma PartsAreNotSplit(worlds: seq<World>, ops: seq<Op<Data>>, mtu: nat, handle: nat, i: nat, j: nat)
    requires IsReadRun(worlds, ops, mtu, handle) && i < |worlds| && Mine(worlds[i].eng.requests) == [Part]
    ensures worlds[i].eng.requests != [] && worlds[i].eng.requests[0].data == Some(Part)
    ensures worlds[i].rd.since <= j < |worlds[i].eng.log| && worlds[i].eng.log[j].Wrote? ==>
              IsResponse(worlds[i].eng.log[j].opcode) || worlds[i].eng.log[j].uid in worlds[i].rd.parts
  {
    RunKeeps(worlds, ops, mtu, handle, i);
  }

  /** The destruction of a queue as our commands see it: each drops its reference. */
  function DropAll(rd: Read, q: seq<Cmd<Data>>): Read
    decreases q
  {
    if q == [] then rd else DropAll(if q[0].data.Some? then Drop(rd) else rd, q[1..])
  }

  /** `attrib_destroy`. */
  function DestroyWorld(w: World): World {
    World(Destroy(w.eng), DropAll(DropAll(w.rd, w.eng.requests), w.eng.responses))
  }

  lemma {:induction false} DropAllCounts(rd: Read, q: seq<Cmd<Data>>)
    ensures DropAll(rd, q) == DropN(rd, |Mine(q)|)
    decreases q
  {
    if q != [] {
      MineHead(q);
      MineOne(q[0]);
      DropAllCounts(if q[0].data.Some? then Drop(rd) else rd, q[1..]);
    }
  }

  /** Destroying the engine in any state of a run drops what is left: no command remains, the shared state has
      then been freed exactly once, and the user is not called. */
  lemma DestroyFrees(worlds: seq<World>, ops: seq<Op<Data>>, mtu: nat, handle: nat, i: nat)
    requires IsReadRun(worlds, ops, mtu, handle) && i < |worlds|
    ensures var z := DestroyWorld(worlds[i]);
            && z.eng.requests == [] && z.eng.responses == []
            && z.rd.refs == 0 && z.rd.freed == 1 && z.rd.calls == worlds[i].rd.calls
  {
    RunKeeps(worlds, ops, mtu, handle, i);
    var w := worlds[i];
    DropAllCounts(w.rd, w.eng.requests);
    DropAllCounts(DropAll(w.rd, w.eng.requests), w.eng.responses);
    DropLeft(w.rd);
  }

  lemma DropLeft(rd: Read)
    requires 0 <= rd.refs <= 1 && rd.freed == (if rd.refs == 0 then 1 else 0)
    ensures var end := DropN(rd, rd.refs);
            end.refs == 0 && end.freed == 1 && end.calls == rd.calls
  {
    assert DropN(Drop(rd), 0) == Drop(rd);
  }

  // ---------------------------------------------------------------- against a conforming server

  /** The bytes of the value a response carries: as many as the MTU lets through. */
  function Chunk(value: seq<byte>, mtu: nat, offset: nat): seq<byte>
    requires offset <= |value| && mtu >= 1
  {
    value[offset..if offset + mtu - 1 <= |value| then offset + mtu - 1 else |value|]
  }

  predicate IsError(bytes: seq<byte>) {
    |bytes| == 5 && bytes[0] == OP_ERROR && bytes[4] != 0
  }

  /** What is seen of the answer of a peer that goes by nothing but the PDU it was sent: the bytes asked for of
      the value of the handle, none behind its end, or any error. */
  predicate Answers(valueAt: nat -> seq<byte>, mtu: nat, pdu: seq<byte>, bytes: seq<byte>)
    requires mtu >= 1
  {
    || IsError(bytes)
    || match Parse(pdu)
       case ReadValue(handle) => bytes == Seen([0x0B] + Chunk(valueAt(handle), mtu, 0))
       case ReadBlob(handle, offset) =>
         if offset < |valueAt(handle)| then bytes == Seen([0x0D] + Chunk(valueAt(handle), mtu, offset))
         else bytes == [0x0D]
       case _ => false
  }

  /** The server answers our requests, and they are not cancelled.  They may time out. */
  predicate Undisturbed(w: World, op: Op<Data>, valueAt: nat -> seq<byte>, mtu: nat)
    requires mtu >= 1
  {
    match op
    case DoReceive(input) => Completes(w.eng, op) ==> Answers(valueAt, mtu, w.eng.requests[0].pdu, input.bytes)
    case DoCancel(id) => Mine(w.eng.requests) == [] || id != w.rd.id
    case DoCancelAll => Mine(w.eng.requests) == []
    case _ => true
  }

  /** A request of ours is queued that asks for bytes the value has. */
  predicate Owed(w: World, value: seq<byte>) {
    Mine(w.eng.requests) != [] && (w.rd.offsets == [] || w.rd.offsets[|w.rd.offsets| - 1] < |value|)
  }

  /** Such a request is answered by an error or times out. */
  predicate CutsShort(w: World, op: Op<Data>, value: seq<byte>) {
    Owed(w, value) && (op.DoTimeout? || (Completes(w.eng, op) && IsError(op.input.bytes)))
  }

  /** How much of the value reaches the user: all of it, unless the MTU lets a first response through that
      is longer than the read buffer. */
  function Delivered(value: seq<byte>, mtu: nat): seq<byte> {
    if mtu > READ_BUFFER && |value| >= READ_BUFFER then value[..READ_BUFFER - 1] else value
  }

  /** The offset the request after `n` full responses asks for. */
  function Pace(n: nat, mtu: nat): nat
    requires mtu >= 1
  {
    if n == 0 then 0 else Pace(n - 1, mtu) + mtu - 1
  }

  /** The buffer holds the opcode and the value up to the offset asked for last, in full responses. */
  predicate Buffered(rd: Read, value: seq<byte>) {
    && 1 <= rd.size == |rd.buffer| <= |value| + 1 && 1 <= rd.mtu <= READ_BUFFER
    && rd.buffer == [OP_READ_RESP] + value[..rd.size - 1]
    && rd.offsets != [] && rd.offsets[|rd.offsets| - 1] == rd.size - 1 == Pace(|rd.offsets|, rd.mtu)
  }

  predicate Underway(c: Cmd<Data>, rd: Read, value: seq<byte>) {
    c.data.Some? ==>
      && c.live
      && (c.data.value == First ==> c.pdu == ReadReq(rd.handle) && rd.offsets == [])
      && (c.data.value == Part ==> Buffered(rd, value) && c.pdu == ReadBlobReq(rd.handle, rd.size - 1))
  }

  ghost predicate Increasing(offsets: seq<nat>) {
    forall i, j :: 0 <= i < j < |offsets| ==> offsets[i] < offsets[j]
  }

  ghost predicate InValue(offsets: seq<nat>, value: seq<byte>) {
    Increasing(offsets) && forall o <- offsets :: o <= |value|
  }

  /** The user got all there is to get, after one request for each full response. */
  predicate Whole(rd: Read, value: seq<byte>) {
    && rd.calls == [Call(0, [OP_READ_RESP] + Delivered(value, rd.mtu))]
    && 1 <= rd.mtu && (rd.mtu <= READ_BUFFER ==> Pace(|rd.offsets|, rd.mtu) <= |value| < Pace(|rd.offsets| + 1, rd.mtu))
  }

  /** The user got the error of the first request, or fewer bytes than there are as a success. */
  predicate Short(rd: Read, value: seq<byte>) {
    && |rd.calls| == 1
    && var c := rd.calls[0];
       if rd.offsets == [] then c.status != 0
       else
         var o := rd.offsets[|rd.offsets| - 1];
         o < |value| && c == Call(0, [OP_READ_RESP] + value[..o])
  }

  /** `cut`: a request that asked for bytes of the value has failed. */
  ghost predicate Reading(w: World, value: seq<byte>, cut: bool) {
    && (forall i :: 0 <= i < |w.eng.requests| ==> Underway(w.eng.requests[i], w.rd, value))
    && (if Mine(w.eng.requests) != [] then !cut else if cut then Short(w.rd, value) else Whole(w.rd, value))
    && InValue(w.rd.offsets, value)
  }

  /** One more offset, behind all others. */
  lemma OneMoreOffset(offsets: seq<nat>, o: nat, value: seq<byte>)
    requires InValue(offsets, value) && o <= |value| && (offsets != [] ==> offsets[|offsets| - 1] < o)
    ensures InValue(offsets + [o], value)
  {
    var more := offsets + [o];
    assert forall i :: 0 <= i < |offsets| ==> offsets[i] <= offsets[|offsets| - 1];
    forall x | x in more ensures x <= |value| {
      assert x in offsets || x == o;
    }
  }

  /** Asking for the bytes behind a buffer that holds the value so far. */
  lemma AskReads(e: State<Data>, rd: Read, value: seq<byte>, pdu: seq<byte>) returns (e1: State<Data>, rd1: Read)
    requires Mine(e.requests) == [] && !e.stale && rd.id != 0 && 1 < rd.mtu <= READ_BUFFER
    requires 1 <= rd.size == |rd.buffer| <= |value| + 1 && rd.size <= 0xffff
    requires rd.buffer == [OP_READ_RESP] + value[..rd.size - 1]
    requires InValue(rd.offsets, value) && rd.size - 1 == Pace(|rd.offsets| + 1, rd.mtu)
    requires rd.offsets != [] ==> rd.offsets[|rd.offsets| - 1] == Pace(|rd.offsets|, rd.mtu)
    ensures (e1, rd1) == Ask(e, rd, pdu)
    ensures Reading(World(e1, rd1), value, false)
  {
    hide Ask;
    var c;
    e1, rd1, c := AskShape(e, rd, pdu);
    MineNone(e.requests);
    MineAdd(e.requests, c);
    assert (rd.size + 0xffff) % 0x1_0000 == rd.size - 1;
    assert rd1.offsets == rd.offsets + [rd.size - 1];
    OneMoreOffset(rd.offsets, rd.size - 1, value);
    assert Underway(c, rd1, value);
  }

  lemma DoneReads(e: State<Data>, rd: Read, value: seq<byte>, cut: bool)
    requires Mine(e.requests) == [] && InValue(rd.offsets, value)
    requires if cut then Short(rd, value) else Whole(rd, value)
    ensures Reading(World(e, rd), value, cut)
  {
    MineNone(e.requests);
  }

  /** The first response: either all there is to come, or a full one, and the next bytes are asked for. */
  lemma FirstRead(e: State<Data>, rd: Read, value: seq<byte>, bytes: seq<byte>) returns (e1: State<Data>, rd1: Read)
    requires Mine(e.requests) == [] && !e.stale && rd.id != 0 && rd.mtu >= 23 && rd.calls == [] && rd.offsets == []
    requires bytes == Seen([OP_READ_RESP] + Chunk(value, rd.mtu, 0))
    ensures (e1, rd1) == CharHelper(e, rd, 0, bytes)
    ensures Reading(World(e1, rd1), value, false)
  {
    assert Pace(1, rd.mtu) == Pace(0, rd.mtu) + rd.mtu - 1;
    if |bytes| < rd.mtu {
      assert bytes == [OP_READ_RESP] + Delivered(value, rd.mtu);
      e1, rd1 := e, Report(rd, 0, bytes);
      DoneReads(e, rd1, value, false);
    } else {
      assert bytes == [OP_READ_RESP] + value[..|bytes| - 1];
      e1, rd1 := AskReads(e, rd.(buffer := bytes, size := |bytes| % 0x1_0000, since := |e.log|), value, bytes);
    }
  }

  lemma ChunkSeen(value: seq<byte>, mtu: nat, offset: nat, opcode: byte, bytes: seq<byte>)
    requires offset < |value| && 1 < mtu <= READ_BUFFER && bytes == Seen([opcode] + Chunk(value, mtu, offset))
    ensures 1 < |bytes| <= mtu && offset + |bytes| - 1 <= |value|
    ensures bytes[1..] == value[offset..offset + |bytes| - 1]
    ensures |bytes| < mtu ==> offset + |bytes| - 1 == |value|
  {
    assert bytes == [opcode] + Chunk(value, mtu, offset);
  }

  /** The bytes of a blob response continue the value behind the buffer. */
  lemma PartGrows(rd: Read, value: seq<byte>, bytes: seq<byte>) returns (grown: Read)
    requires Buffered(rd, value) && rd.size - 1 < |value| <= 0xfffe && 1 < |bytes| && rd.size + |bytes| - 2 <= |value|
    requires bytes[1..] == value[rd.size - 1..rd.size + |bytes| - 2]
    ensures grown == rd.(buffer := Taken(rd) + bytes[1..], size := (rd.size + |bytes| - 1) % 0x1_0000)
    ensures grown.size == rd.size + |bytes| - 1 == |grown.buffer|
    ensures grown.buffer == [OP_READ_RESP] + value[..grown.size - 1] && Taken(grown) == grown.buffer
  {
    var n := |bytes| - 1;
    grown := rd.(buffer := rd.buffer + bytes[1..], size := rd.size + n);
    assert Taken(rd) == rd.buffer;
    assert value[..rd.size - 1] + value[rd.size - 1..rd.size - 1 + n] == value[..rd.size - 1 + n];
    Assoc([OP_READ_RESP], value[..rd.size - 1], bytes[1..]);
  }

  /** A blob response with bytes in it: they go behind the buffer, and only a full response is followed
      by another request. */
  lemma PartRead(e: State<Data>, rd: Read, value: seq<byte>, bytes: seq<byte>) returns (e1: State<Data>, rd1: Read)
    requires Mine(e.requests) == [] && !e.stale && rd.id != 0 && rd.mtu >= 23 && rd.calls == []
    requires Buffered(rd, value) && rd.size - 1 < |value| <= 0xfffe && InValue(rd.offsets, value)
    requires bytes == Seen([OP_READ_BLOB_RESP] + Chunk(value, rd.mtu, rd.size - 1))
    ensures (e1, rd1) == BlobHelper(e, rd, 0, bytes)
    ensures Reading(World(e1, rd1), value, false)
  {
    hide Ask, BlobHelper, Reading, Chunk, Increasing;
    ChunkSeen(value, rd.mtu, rd.size - 1, OP_READ_BLOB_RESP, bytes);
    var grown := PartGrows(rd, value, bytes);
    BlobTaken(e, rd, bytes, grown);
    if |bytes| < rd.mtu {
      e1, rd1 := e, Report(grown, 0, Taken(grown));
      assert value[..|value|] == value;
      DoneReads(e, rd1, value, false);
    } else {
      e1, rd1 := AskReads(e, grown, value, Taken(grown));
    }
  }

  /** A response without bytes, or an error, at the end of the value: all of it is delivered. */
  lemma LastRead(e: State<Data>, rd: Read, value: seq<byte>, status: byte, bytes: seq<byte>)
    requires Mine(e.requests) == [] && rd.calls == [] && Buffered(rd, value) && rd.size - 1 == |value|
    requires InValue(rd.offsets, value) && rd.mtu > 1 && (status != 0 || |bytes| == 1)
    ensures Reading(World(e, BlobHelper(e, rd, status, bytes).1), value, false)
    ensures BlobHelper(e, rd, status, bytes).0 == e
  {
    assert value[..|value|] == value && Taken(rd) == rd.buffer;
    DoneReads(e, Report(rd, 0, Taken(rd)), value, false);
  }

  /** An error before the end of the value: what has been read so far is delivered as a success. */
  lemma ErrorTruncates(e: State<Data>, rd: Read, value: seq<byte>, status: byte, bytes: seq<byte>)
    requires Buffered(rd, value) && rd.calls == [] && rd.size - 1 < |value| && status != 0
    ensures BlobHelper(e, rd, status, bytes) == (e, rd.(calls := [Call(0, [OP_READ_RESP] + value[..rd.size - 1])]))
    ensures BlobHelper(e, rd, status, bytes).1.calls != [Call(0, [OP_READ_RESP] + value)]
    ensures Short(BlobHelper(e, rd, status, bytes).1, value)
  {
    assert Taken(rd) == rd.buffer && rd.calls + [Call(0, rd.buffer)] == [Call(0, rd.buffer)];
    assert |[OP_READ_RESP] + value[..rd.size - 1]| < |[OP_READ_RESP] + value|;
  }

  lemma ErrorStatus(c: Cmd<Data>, bytes: seq<byte>)
    requires IsError(bytes)
    ensures Status(c, bytes) == bytes[4] != 0
  {
  }

  /** The first request fails: its status is reported. */
  lemma FirstFails(e: State<Data>, rd: Read, value: seq<byte>, status: byte, bytes: seq<byte>)
    requires Mine(e.requests) == [] && rd.calls == [] && rd.offsets == [] && status != 0
    ensures CharHelper(e, rd, status, bytes) == (e, Report(rd, status, bytes))
    ensures Reading(World(e, Report(rd, status, bytes)), value, true)
  {
    DoneReads(e, Report(rd, status, bytes), value, true);
  }

  /** A request for a further part fails. */
  lemma PartFails(e: State<Data>, rd: Read, value: seq<byte>, status: byte, bytes: seq<byte>)
    requires Mine(e.requests) == [] && rd.calls == [] && Buffered(rd, value) && status != 0 && rd.mtu > 1
    requires InValue(rd.offsets, value)
    ensures BlobHelper(e, rd, status, bytes).0 == e
    ensures Reading(World(e, BlobHelper(e, rd, status, bytes).1), value, rd.size - 1 < |value|)
  {
    if rd.size - 1 < |value| {
      ErrorTruncates(e, rd, value, status, bytes);
      DoneReads(e, BlobHelper(e, rd, status, bytes).1, value, true);
    } else {
      LastRead(e, rd, value, status, bytes);
    }
  }

  /** The read request names the handle. */
  lemma FirstResponse(c: Cmd<Data>, rd: Read, valueAt: nat -> seq<byte>, bytes: seq<byte>)
    requires c.pdu == ReadReq(rd.handle) && rd.handle <= 0xffff && rd.mtu >= 23
    requires Answers(valueAt, rd.mtu, c.pdu, bytes) && !IsError(bytes)
    ensures bytes == Seen([OP_READ_RESP] + Chunk(valueAt(rd.handle), rd.mtu, 0)) && bytes != [] && Status(c, bytes) == 0
  {
    ReadParsed(rd.handle);
    assert bytes[0] == OP_READ_RESP;
  }

  /** So does every blob request, with the number of bytes there are already. */
  lemma PartResponse(c: Cmd<Data>, rd: Read, valueAt: nat -> seq<byte>, bytes: seq<byte>)
    requires 1 <= rd.size <= 0xffff && rd.size - 1 <= |valueAt(rd.handle)| && rd.handle <= 0xffff
    requires c.pdu == ReadBlobReq(rd.handle, rd.size - 1)
    requires rd.mtu >= 23 && Answers(valueAt, rd.mtu, c.pdu, bytes) && !IsError(bytes)
    ensures bytes != [] && Status(c, bytes) == 0
    ensures var value := valueAt(rd.handle);
            && (rd.size - 1 < |value| ==> bytes == Seen([OP_READ_BLOB_RESP] + Chunk(value, rd.mtu, rd.size - 1)))
            && (rd.size - 1 == |value| ==> |bytes| == 1)
  {
    ReadBlobParsed(rd.handle, rd.size - 1);
    assert bytes[0] == OP_READ_BLOB_RESP;
  }

  /** What a command of ours owes the user. */
  predicate OwedBy(kind: Kind, rd: Read, value: seq<byte>) {
    kind == First || rd.size - 1 < |value|
  }

  lemma HelperReads(e: State<Data>, rd: Read, c: Cmd<Data>, valueAt: nat -> seq<byte>, value: seq<byte>,
                    bytes: seq<byte>)
    returns (e1: State<Data>, rd1: Read)
    requires c.data.Some? && Underway(c, rd, value)
    requires Mine(e.requests) == [] && !e.stale && rd.id != 0 && rd.mtu >= 23 && rd.calls == [] && |value| <= 0xfffe
    requires InValue(rd.offsets, value) && Answers(valueAt, rd.mtu, c.pdu, bytes) && bytes != []
    requires rd.handle <= 0xffff && value == valueAt(rd.handle)
    ensures (e1, rd1) == Helper(e, rd, c.data.value, Status(c, bytes), bytes)
    ensures Reading(World(e1, rd1), value, IsError(bytes) && OwedBy(c.data.value, rd, value))
  {
    var status := Status(c, bytes);
    if IsError(bytes) {
      e1, rd1 := HelperFails(e, rd, c, value, bytes);
    } else if c.data.value == First {
      FirstResponse(c, rd, valueAt, bytes);
      e1, rd1 := FirstRead(e, rd, value, bytes);
    } else {
      PartResponse(c, rd, valueAt, bytes);
      if rd.size - 1 < |value| {
        e1, rd1 := PartRead(e, rd, value, bytes);
      } else {
        LastRead(e, rd, value, status, bytes);
        e1, rd1 := e, BlobHelper(e, rd, status, bytes).1;
      }
    }
  }

  lemma HelperFails(e: State<Data>, rd: Read, c: Cmd<Data>, value: seq<byte>, bytes: seq<byte>)
    returns (e1: State<Data>, rd1: Read)
    requires c.data.Some? && Underway(c, rd, value) && IsError(bytes)
    requires Mine(e.requests) == [] && rd.mtu >= 23 && rd.calls == [] && InValue(rd.offsets, value)
    ensures (e1, rd1) == Helper(e, rd, c.data.value, Status(c, bytes), bytes)
    ensures Reading(World(e1, rd1), value, OwedBy(c.data.value, rd, value))
  {
    ErrorStatus(c, bytes);
    if c.data.value == First {
      FirstFails(e, rd, value, bytes[4], bytes);
      e1, rd1 := e, Report(rd, bytes[4], bytes);
    } else {
      PartFails(e, rd, value, bytes[4], bytes);
      e1, rd1 := e, BlobHelper(e, rd, bytes[4], bytes).1;
    }
  }

  /** Of what a queued command of ours is owed the world says the same. */
  lemma OwedAgrees(c: Cmd<Data>, w: World, value: seq<byte>)
    requires c.data.Some? && Underway(c, w.rd, value) && Mine(w.eng.requests) == [c.data.value]
    ensures Owed(w, value) <==> OwedBy(c.data.value, w.rd, value)
  {
  }

  lemma CompleteReads(w: World, valueAt: nat -> seq<byte>, value: seq<byte>, bytes: seq<byte>, cut: bool)
    requires Held(w) && Reading(w, value, cut) && WorldEnabled(w, DoReceive(Pdu(bytes)))
    requires Completes(w.eng, DoReceive(Pdu(bytes)))
    requires w.rd.mtu >= 23 && |value| <= 0xfffe && Answers(valueAt, w.rd.mtu, w.eng.requests[0].pdu, bytes)
    requires w.rd.handle <= 0xffff && value == valueAt(w.rd.handle)
    ensures Reading(Complete(w, bytes), value, cut || CutsShort(w, DoReceive(Pdu(bytes)), value))
  {
    var c := w.eng.requests[0];
    var popped := PopOurs(w, bytes);
    assert Underway(c, w.rd, value) && OurCmd(c, w.rd);
    OwedAgrees(c, w, value);
    var e, rd := HelperReads(popped, w.rd, c, valueAt, value, bytes);
    CompletedReads(w, value, bytes, popped, e, rd, IsError(bytes) && OwedBy(c.data.value, w.rd, value));
  }

  lemma CompletedReads(w: World, value: seq<byte>, bytes: seq<byte>, popped: State<Data>, e: State<Data>, rd: Read,
                       cut: bool)
    requires Completes(w.eng, DoReceive(Pdu(bytes))) && popped == Receive(w.eng, Pdu(bytes)) && w.eng.requests[0].live
    requires (e, rd) == Helper(popped, w.rd, w.eng.requests[0].data.value, Status(w.eng.requests[0], bytes), bytes)
    requires Reading(World(e, rd), value, cut)
    ensures Reading(Complete(w, bytes), value, cut)
  {
    var z := Complete(w, bytes);
    assert z.eng.requests == e.requests && z.rd == Drop(rd);
  }

  lemma {:induction false} AbortNone(rd: Read, q: seq<Cmd<Data>>, status: byte)
    requires Mine(q) == []
    ensures Abort(rd, q, status) == rd
    decreases q
  {
    if q != [] {
      AbortNone(rd, q[1..], ECODE_ABORTED);
    }
  }

  /** The timeout runs the one command of ours with an error. */
  lemma {:induction false} AbortReads(rd: Read, q: seq<Cmd<Data>>, status: byte, value: seq<byte>)
    requires |Mine(q)| == 1 && (forall i :: 0 <= i < |q| ==> Underway(q[i], rd, value)) && status != 0
    requires rd.calls == [] && rd.mtu > 1 && InValue(rd.offsets, value)
    ensures var z := Abort(rd, q, status);
            && z.offsets == rd.offsets
            && if OwedBy(Mine(q)[0], rd, value) then Short(z, value) else Whole(z, value)
    decreases q
  {
    var c := q[0];
    MineHead(q);
    MineOne(c);
    if c.data.None? {
      AbortReads(rd, q[1..], ECODE_ABORTED, value);
    } else {
      var none: State<Data> := Init();
      var ran := if c.data.value == First then Report(rd, status, []) else Report(rd, 0, Taken(rd));
      AbortNone(Drop(ran), q[1..], ECODE_ABORTED);
      if c.data.value == Part {
        PartFails(none, rd, value, status, [0]);
        assert BlobHelper(none, rd, status, [0]).1 == ran;
      }
    }
  }

  lemma TimeoutReads(w: World, value: seq<byte>, cut: bool)
    requires Held(w) && Reading(w, value, cut) && w.rd.mtu > 1 && Enabled(w.eng, DoTimeout)
    ensures Reading(WorldStep(w, DoTimeout), value, cut || CutsShort(w, DoTimeout, value))
  {
    var q := w.eng.requests;
    if Mine(q) == [] {
      AbortNone(w.rd, q, ECODE_TIMEOUT);
    } else {
      var k := OurIndex(q);
      assert OurCmd(q[k], w.rd) && Underway(q[k], w.rd, value);
      AbortReads(w.rd, q, ECODE_TIMEOUT, value);
      OwedAgrees(q[k], w, value);
    }
  }

  lemma {:induction false} OurIndex(q: seq<Cmd<Data>>) returns (k: nat)
    requires |Mine(q)| == 1
    ensures k < |q| && q[k].data.Some? && Mine(q) == [q[k].data.value]
  {
    k := 0;
    MineHead(q);
    MineOne(q[0]);
    if q[0].data.None? {
      k := OurIndex(q[1..]);
      k := k + 1;
    }
  }

  lemma RemovedReads(w: World, value: seq<byte>, i: nat, e1: State<Data>, cut: bool)
    requires Reading(w, value, cut) && i < |w.eng.requests| && w.eng.requests[i].data.None?
    requires e1.requests == Without(w.eng.requests, i)
             || (i == 0 && e1.requests == w.eng.requests[0 := w.eng.requests[0].(live := false)])
    ensures Reading(World(e1, w.rd), value, cut) && Mine(e1.requests) == Mine(w.eng.requests)
  {
    if e1.requests == Without(w.eng.requests, i) {
      MineWithout(w.eng.requests, i);
    } else {
      MineUpdate(w.eng.requests, w.eng.requests[0].(live := false));
    }
  }

  lemma CancelReads(w: World, value: seq<byte>, id: nat, cut: bool)
    requires Held(w) && Reading(w, value, cut) && (Mine(w.eng.requests) == [] || id != w.rd.id)
    ensures Reading(WorldStep(w, DoCancel(id)), value, cut)
  {
    hide IndexOf, Without, Reading;
    var e, e1 := w.eng, Cancel(w.eng, id).0;
    var i := IndexOf(e.requests, id);
    if i < |e.requests| {
      MineNone(e.requests);
      assert OurCmd(e.requests[i], w.rd);
      RemovedReads(w, value, i, e1, cut);
    } else {
      SameReads(w, value, e1, cut);
    }
  }

  lemma SameReads(w: World, value: seq<byte>, e1: State<Data>, cut: bool)
    requires Reading(w, value, cut) && e1.requests == w.eng.requests
    ensures Reading(World(e1, w.rd), value, cut)
  {
  }

  lemma GoneReads(w: World, value: seq<byte>, e1: State<Data>, cut: bool)
    requires Reading(w, value, cut) && Mine(w.eng.requests) == [] && Mine(e1.requests) == []
    ensures Reading(World(e1, w.rd), value, cut)
  {
    MineNone(e1.requests);
  }

  lemma SendReads(w: World, value: seq<byte>, id: nat, pdu: seq<byte>, live: bool, cut: bool)
    requires Held(w) && Reading(w, value, cut) && WorldEnabled(w, DoSend(id, pdu, live, None))
    ensures Reading(World(Send(w.eng, id, pdu, live, None).0, w.rd), value, cut)
  {
    hide IsResponse, NextId, Underway, Increasing;
    if !w.eng.stale {
      SendHeld(w, id, pdu, live);
      SentReads(w, value, id, pdu, live, cut);
    }
  }

  lemma SentReads(w: World, value: seq<byte>, id: nat, pdu: seq<byte>, live: bool, cut: bool)
    requires Reading(w, value, cut) && !w.eng.stale && pdu != []
    requires Mine(Send(w.eng, id, pdu, live, None).0.requests) == Mine(w.eng.requests)
    ensures Reading(World(Send(w.eng, id, pdu, live, None).0, w.rd), value, cut)
  {
    hide IsResponse, NextId, Whole, Short, InValue;
    var q, q1 := w.eng.requests, Send(w.eng, id, pdu, live, None).0.requests;
    assert forall i :: 0 <= i < |q1| && q1[i].data.Some? ==> q1[i] in q;
  }

  lemma EndReads(w: World, value: seq<byte>, cut: bool)
    requires Reading(w, value, cut) && w.eng.current.Some?
    ensures Reading(World(EndReceive(w.eng), w.rd), value, cut)
  {
  }

  lemma WriteReads(w: World, value: seq<byte>, hup: bool, ok: bool, cut: bool)
    requires Held(w) && OneSent(w.eng) && Reading(w, value, cut)
    ensures Reading(World(Write(w.eng, hup, ok), w.rd), value, cut)
  {
    WriteMine(w, hup, ok);
    assert w.eng.requests != [] ==> Underway(w.eng.requests[0], w.rd, value);
  }

  lemma ReceiveReads(w: World, value: seq<byte>, input: Input, cut: bool)
    requires Held(w) && Reading(w, value, cut)
    requires WorldEnabled(w, DoReceive(input)) && !Completes(w.eng, DoReceive(input))
    ensures Reading(World(Receive(w.eng, input), w.rd), value, cut)
  {
    ReceiveHeld(w, input);
  }

  lemma WriteMine(w: World, hup: bool, ok: bool)
    requires Held(w) && OneSent(w.eng)
    ensures Mine(Write(w.eng, hup, ok).requests) == Mine(w.eng.requests)
  {
    var e := w.eng;
    if e.responses == [] && e.requests != [] && !hup && ok {
      WriteHeadMine(w);
    } else {
      assert Write(e, hup, ok).requests == e.requests;
    }
  }

  lemma CancelAllReads(w: World, value: seq<byte>, cut: bool)
    requires Reading(w, value, cut) && Mine(w.eng.requests) == []
    ensures Reading(WorldStep(w, DoCancelAll), value, cut)
  {
    CancelQueueMine(w.eng.requests);
    if w.eng.requests != [] {
      MineNone(w.eng.requests);
      MineOne(w.eng.requests[0]);
    }
    GoneReads(w, value, CancelAll(w.eng), cut);
  }

  lemma WorldStepReads(w: World, valueAt: nat -> seq<byte>, value: seq<byte>, op: Op<Data>, cut: bool)
    requires Held(w) && OneSent(w.eng) && Reading(w, value, cut) && WorldEnabled(w, op)
    requires w.rd.mtu >= 23 && |value| <= 0xfffe && Undisturbed(w, op, valueAt, w.rd.mtu)
    requires w.rd.handle <= 0xffff && value == valueAt(w.rd.handle)
    ensures Reading(WorldStep(w, op), value, cut || CutsShort(w, op, value))
  {
    hide Held, OneSent, Reading, Owed, Answers, Send, Write, Receive, EndReceive, Timeout, Cancel, CancelAll;
    if Completes(w.eng, op) {
      CompleteReads(w, valueAt, value, op.input.bytes, cut);
    } else {
      match op
      case DoSend(id, pdu, live, data) =>
        SendReads(w, value, id, pdu, live, cut);
      case DoWrite(hup, ok) => WriteReads(w, value, hup, ok, cut);
      case DoReceive(input) => ReceiveReads(w, value, input, cut);
      case DoEndReceive => EndReads(w, value, cut);
      case DoTimeout => TimeoutReads(w, value, cut);
      case DoCancel(id) => CancelReads(w, value, id, cut);
      case DoCancelAll => CancelAllReads(w, value, cut);
    }
  }

  lemma {:induction false} DropNFixed(rd: Read, n: nat)
    ensures DropN(rd, n).mtu == rd.mtu && DropN(rd, n).handle == rd.handle
    decreases n
  {
    if n > 0 {
      DropNFixed(Drop(rd), n - 1);
    }
  }

  lemma {:induction false} AbortFixed(rd: Read, q: seq<Cmd<Data>>, status: byte)
    ensures Abort(rd, q, status).mtu == rd.mtu && Abort(rd, q, status).handle == rd.handle
    decreases q
  {
    if q != [] {
      var c := q[0];
      var ran := if c.data.None? || !c.live then rd
                 else if c.data.value == First then Report(rd, status, []) else Report(rd, 0, Taken(rd));
      AbortFixed(if c.data.Some? then Drop(ran) else ran, q[1..], ECODE_ABORTED);
    }
  }

  lemma RequestKept(w: World, op: Op<Data>)
    requires WorldEnabled(w, op)
    ensures WorldStep(w, op).rd.mtu == w.rd.mtu && WorldStep(w, op).rd.handle == w.rd.handle
  {
    if !Completes(w.eng, op) {
      AbortFixed(w.rd, w.eng.requests, ECODE_TIMEOUT);
      DropNFixed(w.rd, Minus(|Mine(w.eng.requests)|, |Mine(Step(w.eng, op).requests)|));
    }
  }

  lemma ReadStep(w: World, valueAt: nat -> seq<byte>, value: seq<byte>, op: Op<Data>, cut: bool) returns (w1: World)
    requires Held(w) && OneSent(w.eng) && Reading(w, value, cut) && WorldEnabled(w, op)
    requires w.rd.mtu >= 23 && |value| <= 0xfffe && Undisturbed(w, op, valueAt, w.rd.mtu)
    requires w.rd.handle <= 0xffff && value == valueAt(w.rd.handle)
    ensures w1 == WorldStep(w, op) && Reading(w1, value, cut || CutsShort(w, op, value))
    ensures w1.rd.mtu == w.rd.mtu && w1.rd.handle == w.rd.handle
  {
    w1 := WorldStep(w, op);
    RequestKept(w, op);
    WorldStepReads(w, valueAt, value, op, cut);
  }

  lemma StartReads(e: State<Data>, mtu: nat, handle: nat, value: seq<byte>) returns (w: World)
    requires Ready(e)
    ensures w == Start(e, mtu, handle) && w.rd.mtu == mtu && w.rd.handle == handle && Reading(w, value, false)
  {
    var c;
    w, c := StartShape(e, mtu, handle);
    assert Underway(c, w.rd, value);
  }

  lemma StepsHold(worlds: seq<World>, ops: seq<Op<Data>>, i: nat)
    requires AreSteps(worlds, ops) && i < |worlds| && Kept(worlds[0])
    ensures OneSent(worlds[i].eng) && Held(worlds[i])
  {
    StepsKept(worlds, ops, i);
  }

  /** Some request for bytes of the value has failed in the first `n` steps. */
  ghost predicate EverCutShort(worlds: seq<World>, ops: seq<Op<Data>>, value: seq<byte>, n: nat)
    requires n <= |ops| < |worlds|
  {
    exists k :: 0 <= k < n && CutsShort(worlds[k], ops[k], value)
  }

  lemma {:induction false} StepsRead(worlds: seq<World>, ops: seq<Op<Data>>, mtu: nat, handle: nat,
                                     valueAt: nat -> seq<byte>, value: seq<byte>, i: nat)
    requires AreSteps(worlds, ops) && i < |worlds| && mtu >= 23 && |value| <= 0xfffe
    requires Kept(worlds[0]) && Reading(worlds[0], value, false) && worlds[0].rd.mtu == mtu
    requires worlds[0].rd.handle == handle <= 0xffff && value == valueAt(handle)
    requires forall k :: 0 <= k < |ops| ==> Undisturbed(worlds[k], ops[k], valueAt, mtu)
    ensures Reading(worlds[i], value, EverCutShort(worlds, ops, value, i))
    ensures worlds[i].rd.mtu == mtu && worlds[i].rd.handle == handle
  {
    hide Reading, Held, OneSent, Kept, Undisturbed, WorldStep, WorldEnabled, CutsShort;
    if i > 0 {
      StepsRead(worlds, ops, mtu, handle, valueAt, value, i - 1);
      StepsHold(worlds, ops, i - 1);
      assert IsStep(worlds[i - 1], ops[i - 1], worlds[i]);
      var next := ReadStep(worlds[i - 1], valueAt, value, ops[i - 1], EverCutShort(worlds, ops, value, i - 1));
      FailedStep(worlds, ops, value, i);
    }
  }

  lemma FailedStep(worlds: seq<World>, ops: seq<Op<Data>>, value: seq<byte>, i: nat)
    requires 0 < i <= |ops| < |worlds|
    ensures EverCutShort(worlds, ops, value, i) <==>
            EverCutShort(worlds, ops, value, i - 1) || CutsShort(worlds[i - 1], ops[i - 1], value)
  {
  }

  lemma RunReads(worlds: seq<World>, ops: seq<Op<Data>>, mtu: nat, handle: nat, valueAt: nat -> seq<byte>, i: nat)
    returns (value: seq<byte>)
    requires IsReadRun(worlds, ops, mtu, handle) && i < |worlds| && mtu >= 23 && handle <= 0xffff
    requires |valueAt(handle)| <= 0xfffe
    requires forall k :: 0 <= k < |ops| ==> Undisturbed(worlds[k], ops[k], valueAt, mtu)
    ensures value == valueAt(handle)
    ensures Reading(worlds[i], value, EverCutShort(worlds, ops, value, i)) && worlds[i].rd.mtu == mtu
  {
    value := valueAt(handle);
    var e :| Ready(e) && worlds[0] == Start(e, mtu, handle);
    var kept := StartHeld(e, mtu, handle);
    var w := StartReads(e, mtu, handle, value);
    StepsRead(worlds, ops, mtu, handle, valueAt, value, i);
  }

  /** Once the procedure is over, whatever its requests were answered and whether or not they timed out, the
      user has been given the opcode and exactly the value if and only if the value has at most 65534 bytes,
      a full response fits the read buffer or the whole value does, and no request for bytes of the value
      failed.  The offsets asked for strictly increase and stay within the value. */
  lemma LongReadDelivers(worlds: seq<World>, ops: seq<Op<Data>>, mtu: nat, handle: nat, valueAt: nat -> seq<byte>,
                         i: nat)
    requires IsReadRun(worlds, ops, mtu, handle) && i < |worlds| && mtu >= 23 && handle <= 0xffff
    requires forall k :: 0 <= k < |ops| ==> Undisturbed(worlds[k], ops[k], valueAt, mtu)
    ensures var value, rd := valueAt(handle), worlds[i].rd;
            && (rd.refs == 0 ==>
                  (rd.calls == [Call(0, [OP_READ_RESP] + value)] <==>
                     && |value| <= 0xfffe && (mtu <= READ_BUFFER || |value| < READ_BUFFER)
                     && !EverCutShort(worlds, ops, value, i)))
            && (|value| <= 0xfffe ==> InValue(rd.offsets, value))
  {
    RunKeeps(worlds, ops, mtu, handle, i);
    var value := valueAt(handle);
    var w, whole := worlds[i], [OP_READ_RESP] + value;
    if |value| <= 0xfffe {
      var _ := RunReads(worlds, ops, mtu, handle, valueAt, i);
      assert Delivered(value, mtu) != value ==> [OP_READ_RESP] + Delivered(value, mtu) != whole;
      assert Short(w.rd, value) ==> w.rd.calls != [Call(0, whole)];
    } else {
      assert |whole| > 0xffff;
      assert Call(0, whole) !in w.rd.calls;
    }
  }

  /** When a request for bytes of the value has failed: the first one reports its error, but a later one is
      reported as a success with the bytes in front of the offset it asked for. */
  lemma FailureReported(worlds: seq<World>, ops: seq<Op<Data>>, mtu: nat, handle: nat, valueAt: nat -> seq<byte>,
                        i: nat)
    requires IsReadRun(worlds, ops, mtu, handle) && i < |worlds| && mtu >= 23 && handle <= 0xffff
    requires forall k :: 0 <= k < |ops| ==> Undisturbed(worlds[k], ops[k], valueAt, mtu)
    requires |valueAt(handle)| <= 0xfffe && worlds[i].rd.refs == 0 && EverCutShort(worlds, ops, valueAt(handle), i)
    ensures Short(worlds[i].rd, valueAt(handle))
  {
    RunKeeps(worlds, ops, mtu, handle, i);
    var _ := RunReads(worlds, ops, mtu, handle, valueAt, i);
  }

  lemma PaceIs(n: nat, mtu: nat)
    requires mtu >= 1
    ensures Pace(n, mtu) == n * (mtu - 1)
  {
    if n > 0 {
      PaceIs(n - 1, mtu);
      assert n * (mtu - 1) == (n - 1) * (mtu - 1) + (mtu - 1);
    }
  }

  lemma PaceCount(n: nat, mtu: nat, len: nat)
    requires mtu > 1 && Pace(n, mtu) <= len < Pace(n + 1, mtu)
    ensures n == len / (mtu - 1)
  {
    PaceIs(n, mtu);
    DivUnique(len, mtu - 1, n, len - n * (mtu - 1));
  }

  /** A value that is delivered takes exactly one blob request for each time a full response goes into it. */
  lemma BlobRequestCount(worlds: seq<World>, ops: seq<Op<Data>>, mtu: nat, handle: nat, valueAt: nat -> seq<byte>,
                         i: nat)
    requires IsReadRun(worlds, ops, mtu, handle) && i < |worlds| && 23 <= mtu <= READ_BUFFER && handle <= 0xffff
    requires forall k :: 0 <= k < |ops| ==> Undisturbed(worlds[k], ops[k], valueAt, mtu)
    requires |valueAt(handle)| <= 0xfffe && worlds[i].rd.refs == 0 && !EverCutShort(worlds, ops, valueAt(handle), i)
    ensures |worlds[i].rd.offsets| == |valueAt(handle)| / (mtu - 1)
  {
    RunKeeps(worlds, ops, mtu, handle, i);
    var value := RunReads(worlds, ops, mtu, handle, valueAt, i);
    PaceCount(|worlds[i].rd.offsets|, mtu, |value|);
  }

  /** With a larger MTU a response can be longer than the read buffer: 600 bytes read with an MTU of 672
      reach the user as the first 511. */
  lemma LargeMtuCutsValue(e: State<Data>, handle: nat)
    requires Ready(e)
    ensures var value: seq<byte> := seq(600, _ => 0);
            var rd := CharHelper(e, Start(e, 672, handle).rd, 0, Seen([OP_READ_RESP] + Chunk(value, 672, 0))).1;
            rd.calls == [Call(0, [OP_READ_RESP] + value[..511])] && rd.calls != [Call(0, [OP_READ_RESP] + value)]
  {
    var value: seq<byte> := seq(600, _ => 0);
    var bytes := Seen([OP_READ_RESP] + Chunk(value, 672, 0));
    assert bytes == [OP_READ_RESP] + value[..511];
    assert |[OP_READ_RESP] + value| != |bytes|;
  }

  // ---------------------------------------------------------------- the procedure as the source has it

  /** `struct read_long_data`, updated in place by its result functions while the engine is in the middle
      of a completion. */
  class ReadLong {
    const mtu: nat
    const handle: nat
    var buffer: seq<byte>
    var size: nat
    var id: nat
    var refs: int
    ghost var freed: nat
    var calls: seq<Call>
    ghost var offsets: seq<nat>
    ghost var parts: set<nat>
    ghost var since: nat

    ghost function View(): Read
      reads this
    {
      Read(mtu, handle, buffer, size, id, refs, freed, calls, offsets, parts, since)
    }

    /** The allocation in `gatt_read_char`. */
    constructor (mtu: nat, handle: nat)
      ensures View() == Read(mtu, handle, [], 0, 0, 0, 0, [], [], {}, 0)
    {
      this.mtu, this.handle := mtu, handle;
      buffer, size, id, refs, freed, calls := [], 0, 0, 0, 0, [];
      offsets, parts, since := [], {}, 0;
    }

    method SendFirst(attrib: Attrib<Data>)
      requires View() == Read(mtu, handle, [], 0, 0, 0, 0, [], [], {}, 0)
      modifies attrib, `refs, `id
      ensures fresh(attrib.Commands() - old(attrib.Commands()))
      ensures attrib.View() == Start(old(attrib.View()), mtu, handle).eng
      ensures id == Send(old(attrib.View()), 0, ReadReq(handle), true, Some(First)).1
      ensures id != 0 ==> View() == Start(old(attrib.View()), mtu, handle).rd
    {
      var sent := attrib.Submit(0, ReadReq(handle), true, Some(First));
      if sent != 0 {
        refs := refs + 1;
        id := sent;
      }
    }

    /** The rest of `gatt_read_char`; `id` stays 0 if the engine refuses the request. */
    method ReadChar(attrib: Attrib<Data>)
      requires attrib.Valid() && View() == Read(mtu, handle, [], 0, 0, 0, 0, [], [], {}, 0)
      modifies attrib, `refs, `id
      ensures attrib.Valid() && fresh(attrib.Commands() - old(attrib.Commands()))
      ensures attrib.View() == Start(old(attrib.View()), mtu, handle).eng
      ensures id == Send(old(attrib.View()), 0, ReadReq(handle), true, Some(First)).1
      ensures id != 0 ==> View() == Start(old(attrib.View()), mtu, handle).rd
    {
      ghost var next := FirstInv(attrib.View(), handle);
      SendFirst(attrib);
      assert attrib.View() == next;
    }

    /** `read_long_destroy`. */
    method Destroy()
      modifies this
      ensures View() == Drop(old(View()))
    {
      refs := refs - 1;
      if refs > 0 {
        return;
      }
      freed := freed + 1;
    }

    /** The blob request both helpers send; `pdu` is what they report if it is refused. */
    method RequestBlob(attrib: Attrib<Data>, ghost pdu: seq<byte>) returns (queued: bool)
      modifies `refs, `offsets, `parts, attrib
      ensures fresh(attrib.Commands() - old(attrib.Commands()))
      ensures attrib.View() == Ask(old(attrib.View()), old(View()), pdu).0
      ensures (if queued then View() else Report(View(), ECODE_IO, pdu)) == Ask(old(attrib.View()), old(View()), pdu).1
      ensures !queued ==> View() == old(View())
    {
      hide Send, ReadBlobReq;
      var offset := (size + 0xffff) % 0x1_0000;
      ghost var uid := attrib.accepted;
      var sent := attrib.Submit(id, ReadBlobReq(handle, offset), true, Some(Part));
      if sent == 0 {
        return false;
      }
      refs, offsets, parts := refs + 1, offsets + [offset], parts + {uid};
      queued := true;
    }

    method TakeFirst(attrib: Attrib<Data>, status: byte, rpdu: seq<byte>)
      modifies this, attrib
      ensures fresh(attrib.Commands() - old(attrib.Commands()))
      ensures attrib.View() == CharHelper(old(attrib.View()), old(View()), status, rpdu).0
      ensures View() == CharHelper(old(attrib.View()), old(View()), status, rpdu).1
    {
      hide Ask;
      ghost var e, rd := attrib.View(), View();
      var err := status;
      if status == 0 && |rpdu| >= mtu {
        buffer, size, since := rpdu, |rpdu| % 0x1_0000, |attrib.log|;
        ghost var asked := View();
        assert CharHelper(e, rd, status, rpdu) == Ask(e, asked, rpdu);
        assert attrib.View() == e;
        var queued := RequestBlob(attrib, rpdu);
        if queued {
          return;
        }
        err := ECODE_IO;
      }
      calls := calls + [Call(err, rpdu)];
    }

    /** `read_char_helper`: it runs inside a completion, where pushing the blob request in front of the
        queue is allowed. */
    method ReadCharHelper(attrib: Attrib<Data>, status: byte, rpdu: seq<byte>)
      requires attrib.Valid() && attrib.current.Some? && (status == 0 ==> rpdu != [])
      modifies this, attrib
      ensures attrib.Valid() && fresh(attrib.Commands() - old(attrib.Commands()))
      ensures attrib.View() == CharHelper(old(attrib.View()), old(View()), status, rpdu).0
      ensures View() == CharHelper(old(attrib.View()), old(View()), status, rpdu).1
    {
      ghost var next := CharInv(attrib.View(), View(), status, rpdu);
      TakeFirst(attrib, status, rpdu);
      assert attrib.View() == next;
    }

    method TakePart(attrib: Attrib<Data>, status: byte, rpdu: seq<byte>)
      requires (status == 0 ==> rpdu != []) && size <= |buffer|
      modifies this, attrib
      ensures fresh(attrib.Commands() - old(attrib.Commands()))
      ensures attrib.View() == BlobHelper(old(attrib.View()), old(View()), status, rpdu).0
      ensures View() == BlobHelper(old(attrib.View()), old(View()), status, rpdu).1
    {
      hide Ask;
      ghost var e, rd := attrib.View(), View();
      var err := 0;
      if status == 0 && |rpdu| != 1 {
        buffer := buffer[..size] + rpdu[1..];
        size := (size + |rpdu| - 1) % 0x1_0000;
        ghost var grown := View();
        assert size <= |buffer|;
        if |rpdu| >= mtu {
          assert BlobHelper(e, rd, status, rpdu) == Ask(e, grown, Taken(grown));
          assert attrib.View() == e;
          var queued := RequestBlob(attrib, Taken(grown));
          if queued {
            return;
          }
          err := ECODE_IO;
        }
      }
      calls := calls + [Call(err, buffer[..size])];
    }

    /** `read_blob_helper`, inside a completion too. */
    method ReadBlobHelper(attrib: Attrib<Data>, status: byte, rpdu: seq<byte>)
      requires attrib.Valid() && attrib.current.Some? && (status == 0 ==> rpdu != []) && size <= |buffer|
      modifies this, attrib
      ensures attrib.Valid() && fresh(attrib.Commands() - old(attrib.Commands()))
      ensures attrib.View() == BlobHelper(old(attrib.View()), old(View()), status, rpdu).0
      ensures View() == BlobHelper(old(attrib.View()), old(View()), status, rpdu).1
    {
      ghost var next := BlobInv(attrib.View(), View(), status, rpdu);
      TakePart(attrib, status, rpdu);
      assert attrib.View() == next;
    }
  }
}
