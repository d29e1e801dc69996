/** Reassembly of an attribute response that the server splits with continuation states. */
module SdpContinuation {
  import opened Bytes
  import opened SdpElements
  import opened SdpFraming
  import opened SdpRecord
  import opened SdpRecordPdu

  const ERROR_RSP: byte := 0x01
  const SVC_SEARCH_RSP: byte := 0x03
  const SVC_ATTR_RSP: byte := 0x05
  const SVC_SEARCH_ATTR_RSP: byte := 0x07
  const INVALID_PDU_SIZE := 0x0004

  /** What one read from the socket gives: nothing usable, or a response header and its parameters. */
  datatype Reply = Lost | Reply(tidMatches: bool, id: byte, plenMatches: bool, params: seq<byte>)

  /** One fragment of a response and the continuation state sent with it, empty on the last one. */
  datatype Fragment = Fragment(bytes: seq<byte>, state: seq<byte>)

  /** A continuation state behind its length byte. */
  function StateField(state: seq<byte>): seq<byte> {
    [|state| % 256] + state
  }

  /** The parameters a conforming server sends for a fragment. */
  function Params(f: Fragment): seq<byte> {
    BE(|f.bytes|, 2) + f.bytes + StateField(f.state)
  }

  function ReplyOf(f: Fragment): Reply {
    Reply(true, SVC_ATTR_RSP, true, Params(f))
  }

  function Joined(fs: seq<Fragment>): seq<byte> {
    if fs == [] then [] else fs[0].bytes + Joined(fs[1..])
  }

  /** Only the last fragment has an empty state; sizes fit their fields and the request buffer. */
  ghost predicate Conforming(fs: seq<Fragment>, room: nat) {
    && fs != [] && room > 0
    && (forall i :: 0 <= i < |fs| ==> (fs[i].state == [] <==> i == |fs| - 1))
    && forall f <- fs :: |f.bytes| <= 0xffff && |f.state| < 256 && |f.state| < room && |Params(f)| <= AREA
  }

  /** Parameter bytes a response buffer has room for. */
  const AREA := 65530

  lemma ParamsShape(f: Fragment)
    requires |f.bytes| <= 0xffff && |f.state| < 256
    ensures var p := Params(f);
            && |p| == 3 + |f.bytes| + |f.state|
            && FromBE(p[..2]) == |f.bytes|
            && p[2..2 + |f.bytes|] == f.bytes
            && p[2 + |f.bytes|] == |f.state|
            && p[3 + |f.bytes|..] == f.state
  {
    RadixValues();
    BERoundTrip(|f.bytes|, 2);
    assert Params(f)[..2] == BE(|f.bytes|, 2);
  }

  // ---------------------------------------------------------------- blocking request

  /** The locals of the loop in `sdp_service_attr_req`.  `area` is the reused response buffer past the
      header; `state` is where in it the continuation state was found. */
  datatype Request = Request(area: seq<byte>, state: Option<nat>, joined: seq<byte>, count: nat, sent: seq<seq<byte>>)

  datatype Round = Failed(sent: seq<seq<byte>>) | Again(request: Request) | Done(request: Request, bytes: seq<byte>)

  function Slice(s: seq<byte>, from: nat, n: nat): seq<byte> {
    var lo := if from < |s| then from else |s|;
    var hi := if from + n < |s| then from + n else |s|;
    s[lo..hi]
  }

  /** `copy_cstate` into a request with `room` bytes left. */
  function CopyState(area: seq<byte>, state: Option<nat>, room: nat): seq<byte>
    requires room > 0
  {
    if state == None || state.value >= |area| then [0]
    else
      var len := area[state.value];
      var fit := if len >= room then room - 1 else len;
      [fit] + Slice(area, state.value + 1, fit)
  }

  /** The request carries the continuation state as it was received, or as much of it as there is room for. */
  lemma StateCopied(area: seq<byte>, at: nat, room: nat)
    requires room > 0 && at < |area| && at + area[at] < |area|
    ensures var state, field := area[at + 1..at + 1 + area[at]], CopyState(area, Some(at), room);
            && field[0] == |field| - 1 && field[1..] <= state && |field| <= room
            && (field[1..] == state <==> |state| < room) && (|state| >= room ==> |field| == room)
  {
    var len: nat := area[at];
    var state, fit := area[at + 1..at + 1 + len], if len >= room then room - 1 else len;
    assert Slice(area, at + 1, fit) == state[..fit];
    assert CopyState(area, Some(at), room)[1..] == state[..fit];
    assert state[..len] == state;
  }

  /** One turn of the loop: send, receive, and join the fragment if the response is split. */
  function RequestRound(r: Request, reply: Reply, room: nat): Round
    requires room > 0
  {
    var sent := r.sent + [CopyState(r.area, r.state, room)];
    if reply.Lost? || !reply.tidMatches || reply.id == ERROR_RSP || |reply.params| < 2 then Failed(sent)
    else
      var params := reply.params;
      var count := FromBE(params[..2]);
      if |params| - 2 < count + 1 then Failed(sent)
      else
        var area := params + (if |params| <= |r.area| then r.area[|params|..] else []);
        var stateLen := params[2 + count];
        var split := stateLen > 0 || r.joined != [];
        var next := Request(area,
                            if !split then r.state else if stateLen > 0 then Some(2 + count) else None,
                            if split then r.joined + params[2..2 + count] else r.joined,
                            r.count + count,
                            sent);
        if next.state != None then Again(next)
        else Done(next, if next.joined != [] then next.joined else params[2..])
  }

  /** The result of the whole request on a list of replies; `None` bytes: no record is extracted. */
  datatype Answer = Answer(bytes: Option<seq<byte>>, sent: seq<seq<byte>>, used: nat)

  function Run(r: Request, replies: seq<Reply>, room: nat): Answer
    requires room > 0
    decreases |replies|
  {
    if replies == [] then Answer(None, r.sent + [CopyState(r.area, r.state, room)], 0)
    else
      match RequestRound(r, replies[0], room)
      case Failed(sent) => Answer(None, sent, 1)
      case Done(next, bytes) => Answer(if next.count > 0 then Some(bytes) else None, next.sent, 1)
      case Again(next) =>
        var a := Run(next, replies[1..], room);
        a.(used := a.used + 1)
  }

  /** `sdp_service_attr_req` from its loop on. */
  method ServiceAttrReq(area: seq<byte>, replies: seq<Reply>, room: nat) returns (a: Answer)
    requires room > 0
    ensures a == Run(Request(area, None, [], 0, []), replies, room)
  {
    ghost var whole := Run(Request(area, None, [], 0, []), replies, room);
    var r := Request(area, None, [], 0, []);
    var i := 0;
    while i < |replies|
      invariant i <= |replies|
      invariant whole == Run(r, replies[i..], room).(used := Run(r, replies[i..], room).used + i)
    {
      assert replies[i..][1..] == replies[i + 1..];
      var round := RequestRound(r, replies[i], room);
      i := i + 1;
      match round
      case Failed(sent) => return Answer(None, sent, i);
      case Done(next, bytes) => return Answer(if next.count > 0 then Some(bytes) else None, next.sent, i);
      case Again(next) => r := next;
    }
    a := Answer(None, r.sent + [CopyState(r.area, r.state, room)], i);
  }

  function Replies(fs: seq<Fragment>): seq<Reply> {
    if fs == [] then [] else [ReplyOf(fs[0])] + Replies(fs[1..])
  }

  /** Continuation fields of the requests: the first is empty, each later one is the latest state. */
  function StatesSent(latest: seq<byte>, fs: seq<Fragment>): seq<seq<byte>>
    decreases |fs|
  {
    if fs == [] then []
    else [StateField(latest)] + (if |fs| == 1 then [] else StatesSent(fs[0].state, fs[1..]))
  }

  lemma FragmentRound(r: Request, f: Fragment, latest: seq<byte>, room: nat)
    requires |f.bytes| <= 0xffff && |f.state| < 256 && |f.state| < room && |Params(f)| <= AREA == |r.area|
    requires CopyState(r.area, r.state, room) == StateField(latest)
    ensures var sent := r.sent + [StateField(latest)];
            match RequestRound(r, ReplyOf(f), room)
            case Failed(_) => false
            case Again(next) =>
              && (f.state != [] || (r.joined == [] && r.state != None))
              && |next.area| == AREA && next.sent == sent && next.count == r.count + |f.bytes|
              && (f.state != [] ==> next.joined == r.joined + f.bytes && next.state != None &&
                                    CopyState(next.area, next.state, room) == StateField(f.state))
            case Done(next, bytes) =>
              && f.state == [] && (r.joined != [] || r.state == None)
              && next.sent == sent && next.count == r.count + |f.bytes|
              && bytes == if r.joined != [] then r.joined + f.bytes else f.bytes + [0]
  {
    ParamsShape(f);
    var p := Params(f);
    var n := |f.bytes|;
    var area := p + r.area[|p|..];
    assert area[2 + n] == |f.state|;
    assert Slice(area, 3 + n, |f.state|) == p[3 + n..] == f.state;
    if f.state == [] {
      assert p[2..] == f.bytes + [0];
    }
  }

  lemma RunLast(r: Request, f: Fragment, rest: seq<Reply>, latest: seq<byte>, room: nat)
    requires |f.bytes| <= 0xffff && f.state == [] && room > 0 && |Params(f)| <= AREA == |r.area|
    requires CopyState(r.area, r.state, room) == StateField(latest)
    requires r.joined != [] || r.state == None
    ensures Run(r, [ReplyOf(f)] + rest, room) ==
            Answer(if r.count + |f.bytes| == 0 then None
                   else Some(if r.joined != [] then r.joined + f.bytes else f.bytes + [0]),
                   r.sent + [StateField(latest)], 1)
  {
    FragmentRound(r, f, latest, room);
  }

  lemma RunAgain(r: Request, f: Fragment, rest: seq<Reply>, latest: seq<byte>, room: nat) returns (next: Request)
    requires |f.bytes| <= 0xffff && 0 < |f.state| < 256 && |f.state| < room && |Params(f)| <= AREA == |r.area|
    requires CopyState(r.area, r.state, room) == StateField(latest)
    ensures |next.area| == AREA && CopyState(next.area, next.state, room) == StateField(f.state)
    ensures next.joined == r.joined + f.bytes && next.count == r.count + |f.bytes| && next.state != None
    ensures next.sent == r.sent + [StateField(latest)]
    ensures var a := Run(next, rest, room);
            Run(r, [ReplyOf(f)] + rest, room) == a.(used := a.used + 1)
  {
    FragmentRound(r, f, latest, room);
    next := RequestRound(r, ReplyOf(f), room).request;
    assert ([ReplyOf(f)] + rest)[1..] == rest;
  }

  lemma JoinedFirst(fs: seq<Fragment>, front: seq<byte>)
    requires fs != []
    ensures Joined(fs) == fs[0].bytes + Joined(fs[1..])
    ensures front + Joined(fs) == (front + fs[0].bytes) + Joined(fs[1..])
  {
    var tail := Joined(fs[1..]);
    assert Joined(fs) == fs[0].bytes + tail;
    Assoc(front, fs[0].bytes, tail);
  }

  /** The same for all fragments but the last. */
  lemma JoinedFrontFirst(fs: seq<Fragment>, front: seq<byte>)
    requires |fs| > 1
    ensures front + Joined(fs[..|fs| - 1]) == (front + fs[0].bytes) + Joined(fs[1..][..|fs| - 2])
    ensures |fs| == 2 ==> Joined(fs[1..][..|fs| - 2]) == []
  {
    hide Joined;
    var hs := fs[..|fs| - 1];
    assert hs[1..] == fs[1..][..|fs| - 2];
    JoinedFirst(hs, front);
    if |fs| == 2 {
      JoinedNone(fs[1..][..0]);
    }
  }

  lemma JoinedNone(fs: seq<Fragment>)
    requires fs == []
    ensures Joined(fs) == []
  {
  }

  lemma RepliesFirst(fs: seq<Fragment>, rest: seq<Reply>)
    requires fs != []
    ensures Replies(fs) + rest == [ReplyOf(fs[0])] + (Replies(fs[1..]) + rest)
    ensures Replies(fs) == [ReplyOf(fs[0])] + Replies(fs[1..])
  {
    var tail := Replies(fs[1..]);
    assert Replies(fs) == [ReplyOf(fs[0])] + tail;
    Assoc([ReplyOf(fs[0])], tail, rest);
  }

  lemma StatesFirst(fs: seq<Fragment>, latest: seq<byte>, front: seq<seq<byte>>)
    requires |fs| > 1
    ensures front + StatesSent(latest, fs) == (front + [StateField(latest)]) + StatesSent(fs[0].state, fs[1..])
  {
    var tail := StatesSent(fs[0].state, fs[1..]);
    assert StatesSent(latest, fs) == [StateField(latest)] + tail;
    Assoc(front, [StateField(latest)], tail);
  }

  lemma ConformingTail(fs: seq<Fragment>, room: nat)
    requires Conforming(fs, room) && |fs| > 1
    ensures Conforming(fs[1..], room) && fs[0].state != []
  {
    assert forall i :: 0 <= i < |fs[1..]| ==> fs[1..][i] == fs[i + 1];
  }

  /** What a run of the loop from `r` should answer. */
  ghost function Expected(r: Request, fs: seq<Fragment>, latest: seq<byte>): Answer
    requires fs != []
  {
    var bytes := if r.joined == [] && |fs| == 1 then fs[0].bytes + [0] else r.joined + Joined(fs);
    Answer(if r.count + |Joined(fs)| > 0 then Some(bytes) else None, r.sent + StatesSent(latest, fs), |fs|)
  }

  lemma OneFragment(f: Fragment, latest: seq<byte>)
    ensures Replies([f]) == [ReplyOf(f)] && Joined([f]) == f.bytes
    ensures StatesSent(latest, [f]) == [StateField(latest)]
  {
    assert [f][1..] == [];
  }

  /** From any point of the loop, the remaining fragments are joined to what is there already. */
  lemma {:induction false} RunFragments(r: Request, fs: seq<Fragment>, rest: seq<Reply>, latest: seq<byte>, room: nat)
    requires Conforming(fs, room) && |r.area| == AREA
    requires CopyState(r.area, r.state, room) == StateField(latest)
    requires |fs| == 1 ==> r.joined != [] || r.state == None
    requires |fs| > 1 ==> r.joined + Joined(fs[..|fs| - 1]) != []
    ensures Run(r, Replies(fs) + rest, room) == Expected(r, fs, latest)
    decreases |fs|
  {
    hide Run, CopyState, Params, Replies, ReplyOf, Joined, StatesSent, StateField;
    var f, gs := fs[0], fs[1..];
    if |fs| == 1 {
      assert fs == [f];
      OneFragment(f, latest);
      RunLast(r, f, rest, latest, room);
    } else {
      ConformingTail(fs, room);
      RepliesFirst(fs, rest);
      var next := RunAgain(r, f, Replies(gs) + rest, latest, room);
      JoinedFirst(fs, r.joined);
      JoinedFrontFirst(fs, r.joined);
      StatesFirst(fs, latest, r.sent);
      RunFragments(next, gs, rest, f.state, room);
    }
  }

  /** The blocking request delivers the concatenation of the fragments (a single one with the zero
      byte of its empty state behind it), asks for each part with the latest state, and stops with the
      last fragment. */
  lemma BlockingDelivers(area: seq<byte>, fs: seq<Fragment>, rest: seq<Reply>, room: nat)
    requires Conforming(fs, room) && |area| == AREA
    requires |fs| == 1 || Joined(fs[..|fs| - 1]) != []
    ensures Run(Request(area, None, [], 0, []), Replies(fs) + rest, room) ==
            Answer(if Joined(fs) == [] then None else Some(if |fs| == 1 then Joined(fs) + [0] else Joined(fs)),
                   StatesSent([], fs), |fs|)
  {
    RunFragments(Request(area, None, [], 0, []), fs, rest, [], room);
    assert [] + StatesSent([], fs) == StatesSent([], fs);
    assert [] + Joined(fs) == Joined(fs);
    if |fs| == 1 {
      assert fs == [fs[0]];
      OneFragment(fs[0], []);
    } else {
      JoinedFirst(fs, []);
      JoinedNonEmpty(fs);
    }
  }

  lemma JoinedNonEmpty(fs: seq<Fragment>)
    requires |fs| > 1 && Joined(fs[..|fs| - 1]) != []
    ensures Joined(fs) != []
  {
    JoinedConcat(fs[..|fs| - 1], [fs[|fs| - 1]]);
    assert fs == fs[..|fs| - 1] + [fs[|fs| - 1]];
  }

  lemma {:induction false} JoinedConcat(fs: seq<Fragment>, gs: seq<Fragment>)
    ensures Joined(fs + gs) == Joined(fs) + Joined(gs)
  {
    if fs == [] {
      assert fs + gs == gs;
    } else {
      JoinedConcat(fs[1..], gs);
      assert (fs + gs)[1..] == fs[1..] + gs && (fs + gs)[0] == fs[0];
    }
  }

  /** The last fragment after none but empty ones: the loop goes on. */
  lemma RunLastEmpty(r: Request, f: Fragment, latest: seq<byte>, room: nat)
    requires |f.bytes| <= 0xffff && f.state == [] && room > 0 && |Params(f)| <= AREA == |r.area|
    requires CopyState(r.area, r.state, room) == StateField(latest)
    requires r.joined == [] && r.state != None
    ensures var a := Run(r, [ReplyOf(f)], room);
            a.bytes == None && a.used == 1 && |a.sent| == |r.sent| + 2
  {
    FragmentRound(r, f, latest, room);
    var next := RequestRound(r, ReplyOf(f), room).request;
    assert [ReplyOf(f)][1..] == [];
    assert Run(next, [], room).sent == next.sent + [CopyState(next.area, next.state, room)];
  }

  /** While only empty fragments have come, nothing is joined. */
  lemma {:induction false} RunEmptyFragments(r: Request, fs: seq<Fragment>, latest: seq<byte>, room: nat)
    requires Conforming(fs, room) && |r.area| == AREA
    requires CopyState(r.area, r.state, room) == StateField(latest)
    requires r.joined == [] && Joined(fs[..|fs| - 1]) == []
    requires |fs| == 1 ==> r.state != None
    ensures var a := Run(r, Replies(fs), room);
            a.bytes == None && a.used == |fs| && |a.sent| == |r.sent| + |fs| + 1
    decreases |fs|
  {
    hide Run, CopyState, Params, Replies, ReplyOf, Joined, StatesSent, StateField;
    var f, gs := fs[0], fs[1..];
    if |fs| == 1 {
      assert fs == [f];
      OneFragment(f, latest);
      RunLastEmpty(r, f, latest, room);
    } else {
      ConformingTail(fs, room);
      RepliesFirst(fs, []);
      var next := RunAgain(r, f, Replies(gs), latest, room);
      JoinedFirst(fs, []);
      JoinedFrontFirst(fs, []);
      RunEmptyFragments(next, gs, f.state, room);
    }
  }

  /** When the blocking loop stops after the last fragment: exactly when the response came in one piece
      or some fragment before the last carried a byte.  Otherwise it sends one more request. */
  lemma BlockingStopsIff(area: seq<byte>, fs: seq<Fragment>, room: nat)
    requires Conforming(fs, room) && |area| == AREA
    ensures |Run(Request(area, None, [], 0, []), Replies(fs), room).sent| == |fs| <==>
            |fs| == 1 || Joined(fs[..|fs| - 1]) != []
  {
    if |fs| == 1 || Joined(fs[..|fs| - 1]) != [] {
      BlockingDelivers(area, fs, [], room);
      assert Replies(fs) + [] == Replies(fs);
      StatesSentLength([], fs);
    } else {
      RunEmptyFragments(Request(area, None, [], 0, []), fs, [], room);
    }
  }

  lemma {:induction false} StatesSentLength(latest: seq<byte>, fs: seq<Fragment>)
    ensures |StatesSent(latest, fs)| == |fs|
    decreases |fs|
  {
    if |fs| > 1 {
      StatesSentLength(fs[0].state, fs[1..]);
    }
  }

  /** Whatever the split, the record extracted at the end is the one the server framed. */
  lemma ReassembledRecord(area: seq<byte>, fs: seq<Fragment>, attrs: seq<Attribute<Element>>, room: nat)
    requires Conforming(fs, room) && |area| == AREA && forall f <- fs :: f.bytes != []
    requires SupportedAttrs(attrs) && Encodable(attrs) && |RecordBytes(attrs)| <= 0xffff
    requires Joined(fs) == Framed(RecordBytes(attrs))
    ensures var a := Run(Request(area, None, [], 0, []), Replies(fs), room);
            a.bytes.Some? && ScanRecord(a.bytes.value) == Scan(attrs)
  {
    if |fs| > 1 {
      assert fs[..|fs| - 1][0] == fs[0] && fs[0].bytes != [];
    }
    BlockingDelivers(area, fs, [], room);
    assert Replies(fs) + [] == Replies(fs);
    RecordRoundTrip(attrs, if |fs| == 1 then [0] else []);
    assert Joined(fs) + [] == Joined(fs);
  }

  /** A reply the blocking request can go by: to its own transaction, not an error response (0x01), with a byte
      count and all the bytes that announces, and one more for the length of the state. */
  predicate Usable(reply: Reply) {
    && reply.Reply? && reply.tidMatches && reply.id != 0x01 && |reply.params| >= 2
    && |reply.params| >= 2 + FromBE(reply.params[..2]) + 1
  }

  function Payload(reply: Reply): seq<byte>
    requires Usable(reply)
  {
    reply.params[2..2 + FromBE(reply.params[..2])]
  }

  /** Of any other reply nothing is joined: the request is over. */
  lemma RoundRejects(r: Request, reply: Reply, room: nat)
    requires room > 0
    ensures RequestRound(r, reply, room).Failed? <==> !Usable(reply)
    ensures match RequestRound(r, reply, room)
            case Failed(_) => true
            case Again(next) => next.joined == r.joined || next.joined == r.joined + Payload(reply)
            case Done(_, bytes) =>
              bytes == if r.joined != [] then r.joined + Payload(reply) else reply.params[2..]
  {
  }

  /** The first reply of another transaction, or unusable in another way, ends the request without a record,
      unless the request has been answered before. */
  lemma {:induction false} BlockingRejects(r: Request, replies: seq<Reply>, room: nat, k: nat)
    requires room > 0 && k < |replies| && !Usable(replies[k])
    ensures var a := Run(r, replies, room); a.used <= k + 1 && (a.used == k + 1 ==> a.bytes == None)
    decreases |replies|
  {
    hide RequestRound;
    RoundRejects(r, replies[0], room);
    match RequestRound(r, replies[0], room)
    case Again(next) => BlockingRejects(next, replies[1..], room, k - 1);
    case _ =>
  }

  // ---------------------------------------------------------------- asynchronous request

  datatype Notice = Notice(id: byte, status: nat, bytes: seq<byte>)

  /** `struct sdp_transaction`, with the requests sent and the callbacks made so far. */
  datatype Transaction = Transaction(joined: seq<byte>, sent: seq<seq<byte>>, notices: seq<Notice>)

  /** The two status bytes, read from a buffer that was zeroed before the response arrived. */
  function ErrorStatus(params: seq<byte>): nat {
    FromBE((params + [0, 0])[..2])
  }

  /** `sdp_process` on one reply to an attribute request.  `sendOk`: the follow-up request could be
      sent.  The second component is the returned value. */
  function ProcessStep(t: Transaction, reply: Reply, sendOk: bool, room: nat): (Transaction, int)
    requires room > 0 && (reply.Reply? ==> reply.id != SVC_SEARCH_RSP)
  {
    if reply.Lost? || !reply.tidMatches || !reply.plenMatches then Finish(t, 0, 0xffff, [])
    else if reply.id == ERROR_RSP then
      Finish(t, reply.id, ErrorStatus(reply.params), reply.params)
    else if reply.id != SVC_ATTR_RSP && reply.id != SVC_SEARCH_ATTR_RSP then Finish(t, reply.id, 0xffff, [])
    else if |reply.params| < 2 then Finish(t, reply.id, INVALID_PDU_SIZE, [])
    else
      var count := FromBE(reply.params[..2]);
      if |reply.params| < 2 + count + 1 then Finish(t, reply.id, INVALID_PDU_SIZE, [])
      else
        var stateLen := reply.params[2 + count];
        if |reply.params| != 2 + count + stateLen + 1 then Finish(t, reply.id, 0xffff, [])
        else
          var next := t.(joined := t.joined + reply.params[2..2 + count]);
          if stateLen == 0 then Finish(next, reply.id, 0, [])
          else
            var field := CopyState(reply.params, Some(2 + count), room);
            if sendOk then (next.(sent := next.sent + [field]), 0)
            else Finish(next, reply.id, 0xffff, [])
  }

  /** The error exit, also taken when the transaction is complete: one callback, return -1. */
  function Finish(t: Transaction, id: byte, status: nat, pdata: seq<byte>): (Transaction, int) {
    (t.(notices := t.notices + [Notice(id, status, if t.joined != [] then t.joined else pdata)]), -1)
  }

  /** A reply the asynchronous request can go by: to its own transaction, an attribute (0x05) or search attribute
      response (0x07), and of exactly the length its own fields announce. */
  predicate Acceptable(reply: Reply) {
    && reply.Reply? && reply.tidMatches && reply.plenMatches && (reply.id == 0x05 || reply.id == 0x07)
    && |reply.params| >= 2
    && var count := FromBE(reply.params[..2]);
       |reply.params| > 2 + count && |reply.params| == 2 + count + 1 + reply.params[2 + count]
  }

  /** Exactly such a reply is joined.  Any other ends the transaction: one callback, with an error status or the
      error response's own, and what has been joined before. */
  lemma StepRejects(t: Transaction, reply: Reply, sendOk: bool, room: nat)
    requires room > 0 && (reply.Reply? ==> reply.id != SVC_SEARCH_RSP)
    ensures var (next, ret) := ProcessStep(t, reply, sendOk, room);
            && (ret == -1 <==> |next.notices| == |t.notices| + 1) && (ret == 0 <==> next.notices == t.notices)
            && if Acceptable(reply) then
                 next.joined == t.joined + reply.params[2..2 + FromBE(reply.params[..2])]
               else
                 && ret == -1 && next.joined == t.joined && next.sent == t.sent
                 && var n := next.notices[|t.notices|];
                    && (n.id == 0x01 || n.status != 0)
                    && (n.id == 0x01 && |reply.params| >= 2 ==>
                          n.status == 256 * (reply.params[0] as int) + reply.params[1] as int)
                    && (t.joined != [] ==> n.bytes == t.joined)
  {
    if reply.Reply? && |reply.params| >= 2 {
      NetworkWord(reply.params[0], reply.params[1]);
      assert (reply.params + [0, 0])[..2] == [reply.params[0], reply.params[1]];
    }
  }

  /** `sdp_service_attr_async` and the calls of `sdp_process` that follow it. */
  class Session {
    var joined: seq<byte>
    var sent: seq<seq<byte>>
    var notices: seq<Notice>
    const room: nat

    ghost function State(): Transaction
      reads this
    {
      Transaction(joined, sent, notices)
    }

    /** The first request carries an empty continuation state. */
    constructor (room: nat)
      ensures State() == Transaction([], [[0]], []) && this.room == room
    {
      joined, sent, notices, this.room := [], [[0]], [], room;
    }

    method Process(reply: Reply, sendOk: bool) returns (err: int)
      requires room > 0 && (reply.Reply? ==> reply.id != SVC_SEARCH_RSP)
      modifies this
      ensures (State(), err) == ProcessStep(old(State()), reply, sendOk, room)
    {
      err := -1;
      if reply.Lost? || !reply.tidMatches || !reply.plenMatches {
        Notify(0, 0xffff, []);
        return;
      }
      if reply.id == ERROR_RSP {
        Notify(reply.id, ErrorStatus(reply.params), reply.params);
        return;
      }
      if reply.id != SVC_ATTR_RSP && reply.id != SVC_SEARCH_ATTR_RSP {
        Notify(reply.id, 0xffff, []);
        return;
      }
      var count := if |reply.params| >= 2 then FromBE(reply.params[..2]) else 0;
      if |reply.params| < 2 + count + 1 {
        Notify(reply.id, INVALID_PDU_SIZE, []);
        return;
      }
      var stateLen := reply.params[2 + count];
      if |reply.params| != 2 + count + stateLen + 1 {
        Notify(reply.id, 0xffff, []);
        return;
      }
      joined := joined + reply.params[2..2 + count];
      var status := 0;
      if stateLen > 0 {
        if sendOk {
          sent := sent + [CopyState(reply.params, Some(2 + count), room)];
          err := 0;
        } else {
          status := 0xffff;
        }
      }
      if err != 0 {
        Notify(reply.id, status, []);
      }
    }

    method Notify(id: byte, status: nat, pdata: seq<byte>)
      modifies this`notices
      ensures notices == old(notices) + [Notice(id, status, if joined != [] then joined else pdata)]
    {
      notices := notices + [Notice(id, status, if joined != [] then joined else pdata)];
    }
  }

  /** The transaction after one `sdp_process` call per fragment, and the values returned. */
  function ProcessAll(t: Transaction, fs: seq<Fragment>, room: nat): (Transaction, seq<int>)
    requires room > 0
    decreases |fs|
  {
    if fs == [] then (t, [])
    else
      var (t1, ret) := ProcessStep(t, ReplyOf(fs[0]), true, room);
      var (t2, rets) := ProcessAll(t1, fs[1..], room);
      (t2, [ret] + rets)
  }

  lemma FragmentStep(t: Transaction, f: Fragment, room: nat)
    requires |f.bytes| <= 0xffff && |f.state| < 256 && |f.state| < room
    ensures var next := t.(joined := t.joined + f.bytes);
            ProcessStep(t, ReplyOf(f), true, room) ==
            if f.state == [] then Finish(next, SVC_ATTR_RSP, 0, [])
            else (next.(sent := t.sent + [StateField(f.state)]), 0)
  {
    ParamsShape(f);
    var p := Params(f);
    assert Slice(p, 3 + |f.bytes|, |f.state|) == p[3 + |f.bytes|..];
  }

  lemma LaterStates(fs: seq<Fragment>)
    requires |fs| > 1 && |fs[0].state| < 256
    ensures StatesSent([], fs[1..]) != []
    ensures StatesSent([], fs)[1..] == [StateField(fs[0].state)] + StatesSent([], fs[1..])[1..]
  {
    var tail := if |fs[1..]| == 1 then [] else StatesSent(fs[1..][0].state, fs[1..][1..]);
    assert StatesSent(fs[0].state, fs[1..]) == [StateField(fs[0].state)] + tail;
    assert StatesSent([], fs[1..])[1..] == tail;
  }

  /** Every step but the last returns 0 and sends the latest state; the last one returns -1 and makes
      the only callback, with status 0 and the concatenation of all fragments, empty ones included. */
  lemma {:induction false} AsyncDelivers(t: Transaction, fs: seq<Fragment>, room: nat)
    requires Conforming(fs, room)
    ensures ProcessAll(t, fs, room) ==
            (Transaction(t.joined + Joined(fs),
                         t.sent + StatesSent([], fs)[1..],
                         t.notices + [Notice(SVC_ATTR_RSP, 0, t.joined + Joined(fs))]),
             seq(|fs| - 1, _ => 0) + [-1])
    decreases |fs|
  {
    var f, gs := fs[0], fs[1..];
    FragmentStep(t, f, room);
    var next := t.(joined := t.joined + f.bytes);
    assert Joined(fs) == f.bytes + Joined(gs);
    if gs == [] {
      assert Joined(fs) == f.bytes + Joined(gs) == f.bytes;
      assert StatesSent([], fs)[1..] == [] && t.sent + [] == t.sent;
      assert ProcessAll(t, fs, room).1 == [-1] + [] == seq(0, _ => 0) + [-1];
    } else {
      var step := next.(sent := t.sent + [StateField(f.state)]);
      AsyncDelivers(step, gs, room);
      Assoc(t.joined, f.bytes, Joined(gs));
      LaterStates(fs);
      Assoc(t.sent, [StateField(f.state)], StatesSent([], gs)[1..]);
      assert [0] + (seq(|gs| - 1, _ => 0) + [-1]) == seq(|fs| - 1, _ => 0) + [-1];
    }
  }
}
