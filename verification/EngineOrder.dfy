/** What a command meets in the engine: its id, its place in the queue, the status of its answer, and the end. */
module EngineOrder {
  import opened Bytes
  import opened AttDefs
  import opened Engine
  import opened EngineSafety
  import opened EngineRuns

  // ---------------------------------------------------------------- answers

  /** The status that goes with a response, by the numbers of the opcodes: the response above the request is a
      success, the error response brings its own status, and any other response is an I/O error. */
  lemma ResponseStatus<U>(s: State<U>, bytes: seq<byte>)
    requires !s.stale && s.requests != [] && s.requests[0].pdu != [] && bytes != []
    requires if bytes[0] == 0x01 then |bytes| >= 5 else bytes[0] > 0 && IsRequest(bytes[0] - 1)
    ensures var c, t := s.requests[0], Receive(s, Pdu(bytes));
            var asked := c.pdu[0];
            var status := if bytes[0] == 0x01 then bytes[4]
                          else if IsRequest(asked) && bytes[0] == asked + 1 then 0 else 0x80;
            && t.requests == s.requests[1..] && t.current == Some(c)
            && t.log == s.log + [Popped(c.uid)] + if c.live then [Ran(c.uid, status)] else []
  {
    hide Expected, IsResponse, IsRequest;
    OpcodeTables(bytes[0]);
    OpcodeTables(s.requests[0].pdu[0]);
  }

  /** What is written first, and what waits: responses go before requests; exactly the opcodes of requests wait for
      an answer at the head of the queue with the timer running, any other command is gone at once. */
  lemma WrittenThenWaits<U>(s: State<U>)
    requires Inv(s) && !s.stale && (s.responses != [] || (s.requests != [] && !s.requests[0].sent))
    requires forall c <- s.requests :: c.pdu != []
    requires forall c <- s.responses :: c.pdu != []
    ensures var t := Write(s, false, true);
            if s.responses != [] then
              t.responses == s.responses[1..] && t.requests == s.requests
            else if IsRequest(s.requests[0].pdu[0]) then
              t.requests == s.requests[0 := s.requests[0].(sent := true)] && t.timeoutWatch && t.responses == []
            else
              t.requests == s.requests[1..] && t.responses == []
  {
    hide Expected, IsResponse, IsRequest, OnePlace, LivesAgree, WireAgrees, TimerArmed, Awake;
    if s.responses != [] {
      OpcodeTables(s.responses[0].pdu[0]);
      RequestsAreNotResponses(s.responses[0].pdu[0]);
    } else {
      OpcodeTables(s.requests[0].pdu[0]);
    }
  }

  /** A write event that fails or finds the channel broken changes nothing but that nothing is written until something
      asks for it again. */
  lemma WriteFails<U>(s: State<U>, hup: bool)
    requires !s.stale && (hup || s.responses != [] || (s.requests != [] && !s.requests[0].sent))
    requires s.responses != [] ==> !s.responses[0].sent
    ensures var t := Write(s, hup, false);
            && !t.writeWatch && t.ioFailed
            && t.requests == s.requests && t.responses == s.responses && t.log == s.log
            && t.timeoutWatch == s.timeoutWatch
  {
  }

  /** A failed read and a response that completes a request get writing going again, even after a failed write; only
      the failed read leaves the timer on. */
  lemma ReadWakes<U>(s: State<U>, input: Input)
    requires !s.stale && (input.ReadError? || (input.Pdu? && input.bytes != [] && IsResponse(input.bytes[0])))
    ensures var t := Receive(s, input);
            && t.timeoutWatch == (input.ReadError? && s.timeoutWatch)
            && (input.ReadError? ==> t.requests == s.requests && t.responses == s.responses && t.log == s.log)
            && (input.ReadError? || s.requests != [] ==>
                  (t.writeWatch <==> s.writeWatch || t.requests != [] || t.responses != []))
  {
    hide IsResponse, Status;
  }

  /** The timeout: the command at the head is told that it timed out, all others that they were aborted, and
      nobody else is told anything. */
  lemma {:induction false} AbortStatuses<U>(q: seq<Cmd<U>>, first: byte)
    ensures forall i :: 0 <= i < |q| && q[i].live ==> Ran(q[i].uid, if i == 0 then first else 0x82) in Aborts(q, first)
    ensures forall e <- Aborts(q, first) :: e.Ran? ==>
              exists i :: 0 <= i < |q| && q[i].live && e == Ran(q[i].uid, if i == 0 then first else 0x82)
    decreases q
  {
    if q != [] {
      AbortStatuses(q[1..], 0x82);
      assert forall i :: 0 < i < |q| ==> q[i] == q[1..][i - 1];
    }
  }

  lemma TimeoutStatuses<U>(s: State<U>)
    ensures var t, q := Timeout(s), s.requests;
            && t.requests == [] && t.stale && s.log <= t.log
            && var added := t.log[|s.log|..];
               && (forall i :: 0 <= i < |q| && q[i].live ==> Ran(q[i].uid, if i == 0 then 0x81 else 0x82) in added)
               && forall e <- added :: e.Ran? ==>
                    exists i :: 0 <= i < |q| && q[i].live && e == Ran(q[i].uid, if i == 0 then 0x81 else 0x82)
  {
    AbortStatuses(s.requests, ECODE_TIMEOUT);
    assert Timeout(s).log[|s.log|..] == Aborts(s.requests, ECODE_TIMEOUT);
  }

  // ---------------------------------------------------------------- ids

  /** Only ids that were given out before are used again. */
  ghost predicate Reuses<U>(states: seq<State<U>>, ops: seq<Op<U>>) {
    |ops| < |states| && forall k :: 0 <= k < |ops| && ops[k].DoSend? ==> ops[k].id <= states[k].lastId
  }

  /** Ids count the commands that asked for one. */
  ghost predicate IdsGiven<U>(s: State<U>, n: nat) {
    && s.lastId <= n
    && IdsUpTo(s.requests, s.lastId) && IdsUpTo(s.responses, s.lastId)
  }

  ghost predicate IdsUpTo<U>(q: seq<Cmd<U>>, last: nat) {
    forall c <- q :: 0 < c.id <= last
  }

  lemma FewerIds<U>(q: seq<Cmd<U>>, last: nat)
    requires IdsUpTo(q, last) && q != []
    ensures IdsUpTo(q[1..], last)
    ensures forall k :: 0 <= k < |q| ==> IdsUpTo(Without(q, k), last)
    ensures IdsUpTo(q[0 := q[0].(sent := true)], last) && IdsUpTo(q[0 := q[0].(live := false)], last)
    ensures IdsUpTo([q[0].(live := false)], last)
  {
    assert q[0] in q;
  }

  lemma SendIds<U>(s: State<U>, id: nat, pdu: seq<byte>, live: bool, data: U, n: nat)
    requires IdsGiven(s, n) && pdu != [] && n < 0xffff_ffff && id <= s.lastId
    ensures IdsGiven(Send(s, id, pdu, live, data).0, n + 1)
  {
    hide IsResponse;
  }

  lemma {:induction false} CancelQueueIds<U>(q: seq<Cmd<U>>, last: nat)
    requires IdsUpTo(q, last)
    ensures IdsUpTo(CancelQueue(q).0, last)
  {
    hide Destroys;
    if q != [] {
      FewerIds(q, last);
    }
  }

  lemma CancelIds<U>(s: State<U>, id: nat)
    requires IdsUpTo(s.requests, s.lastId) && IdsUpTo(s.responses, s.lastId)
    ensures var t := Cancel(s, id).0;
            IdsUpTo(t.requests, s.lastId) && IdsUpTo(t.responses, s.lastId) && t.lastId == s.lastId
  {
    hide IndexOf, Without, IdsUpTo;
    if s.requests != [] {
      FewerIds(s.requests, s.lastId);
    }
    if s.responses != [] {
      FewerIds(s.responses, s.lastId);
    }
  }

  lemma WriteIds<U>(s: State<U>, hup: bool, ok: bool)
    requires IdsUpTo(s.requests, s.lastId) && IdsUpTo(s.responses, s.lastId)
    ensures var t := Write(s, hup, ok);
            IdsUpTo(t.requests, s.lastId) && IdsUpTo(t.responses, s.lastId) && t.lastId == s.lastId
  {
    hide Expected, Opcode, IdsUpTo;
    if s.requests != [] {
      FewerIds(s.requests, s.lastId);
    }
    if s.responses != [] {
      FewerIds(s.responses, s.lastId);
    }
  }

  lemma ReceiveIds<U>(s: State<U>, input: Input)
    requires IdsUpTo(s.requests, s.lastId) && IdsUpTo(s.responses, s.lastId) && (input.Pdu? ==> input.bytes != [])
    ensures var t := Receive(s, input);
            IdsUpTo(t.requests, s.lastId) && IdsUpTo(t.responses, s.lastId) && t.lastId == s.lastId
  {
    hide IsResponse, Status, IdsUpTo;
    if s.requests != [] {
      FewerIds(s.requests, s.lastId);
    }
  }

  lemma StepIds<U>(s: State<U>, op: Op<U>, n: nat)
    requires IdsGiven(s, n) && Enabled(s, op) && n < 0xffff_ffff && (op.DoSend? ==> op.id <= s.lastId)
    ensures IdsGiven(Step(s, op), n + 1)
  {
    hide Write, Receive, Cancel, Aborts, IdsUpTo;
    match op
    case DoSend(id, pdu, live, data) => SendIds(s, id, pdu, live, data, n);
    case DoWrite(hup, ok) => WriteIds(s, hup, ok);
    case DoReceive(input) => ReceiveIds(s, input);
    case DoEndReceive =>
    case DoTimeout => NoIds<U>(s.lastId);
    case DoCancel(id) => CancelIds(s, id);
    case DoCancelAll =>
      CancelQueueIds(s.requests, s.lastId);
      CancelQueueIds(s.responses, s.lastId);
  }

  lemma NoIds<U>(last: nat)
    ensures IdsUpTo<U>([], last)
  {
  }

  lemma {:induction false} RunIds<U>(states: seq<State<U>>, ops: seq<Op<U>>, i: nat)
    requires IsRun(states, ops) && i < |states| && |ops| < 0x1_0000_0000 && Reuses(states, ops)
    ensures IdsGiven(states[i], i)
  {
    hide Step, Enabled, IdsGiven;
    if i > 0 {
      RunIds(states, ops, i - 1);
      StepIds(states[i - 1], ops[i - 1], i - 1);
    } else {
      InitIds<U>();
    }
  }

  lemma InitIds<U>()
    ensures IdsGiven(Init<U>(), 0)
  {
  }

  lemma NewIsFound<U>(q: seq<Cmd<U>>, q1: seq<Cmd<U>>, id: nat)
    requires forall c <- q :: c.id != id
    ensures q1 == q ==> IndexOf(q1, id) == |q|
    ensures |q1| == |q| + 1 && q1[..|q|] == q && q1[|q|].id == id ==> IndexOf(q1, id) == |q|
  {
    assert forall i :: 0 <= i < |q| ==> q[i] in q;
    if |q1| == |q| + 1 && q1[..|q|] == q && q1[|q|].id == id {
      assert forall i :: 0 <= i < |q| ==> q1[i] == q[i];
      FoundBefore(q1, id, |q|);
    }
  }

  lemma {:induction false} FoundBefore<U>(q: seq<Cmd<U>>, id: nat, k: nat)
    requires k < |q| && q[k].id == id
    ensures IndexOf(q, id) <= k
  {
    if q[0].id != id {
      FoundBefore(q[1..], id, k - 1);
    }
  }

  /** Within the first 2 to the 32nd steps a command that asks for an id gets one that is not 0 and that no queued
      command has, so that a cancellation by it means this command; at the end of that range it gets 0, which is
      the answer of a refusal, although the command is queued. */
  lemma FreshIds<U>(states: seq<State<U>>, ops: seq<Op<U>>, i: nat, pdu: seq<byte>, live: bool, data: U)
    requires IsRun(states, ops) && i < |states| && |ops| < 0x1_0000_0000 && Reuses(states, ops)
    requires !states[i].stale && pdu != []
    ensures var s, (t, id) := states[i], Send(states[i], 0, pdu, live, data);
            && (id == 0 <==> s.lastId == 0xffff_ffff)
            && (forall c <- s.requests :: c.id != id) && (forall c <- s.responses :: c.id != id)
            && (id != 0 ==> id > s.lastId && Target(t, id).Some? && Target(t, id).value.uid == s.accepted)
  {
    RunIds(states, ops, i);
    var s := states[i];
    var (t, id) := Send(s, 0, pdu, live, data);
    NewIsFound(s.requests, t.requests, id);
    NewIsFound(s.responses, t.responses, id);
  }

  // ---------------------------------------------------------------- order

  /** The commands that were pushed in front of the queue, by their uids. */
  ghost function Pushed<U>(states: seq<State<U>>, ops: seq<Op<U>>, n: nat): set<nat>
    requires n <= |ops| <= |states|
  {
    set k | 0 <= k < n && PushesFront(ops[k]) :: states[k].accepted
  }

  predicate PushesFront<U>(op: Op<U>) {
    op.DoSend? && op.id != 0 && op.pdu != [] && !IsResponse(op.pdu[0])
  }

  /** Older commands are in front of newer ones, but for those that were pushed to the front. */
  ghost predicate InOrder<U>(q: seq<Cmd<U>>, pushed: set<nat>) {
    forall i, j :: 0 <= i < j < |q| && q[i].uid !in pushed && q[j].uid !in pushed ==> q[i].uid < q[j].uid
  }

  /** Nothing of what a queue can lose brings it out of order. */
  lemma LessInOrder<U>(q: seq<Cmd<U>>, pushed: set<nat>)
    requires InOrder(q, pushed) && q != []
    ensures InOrder(q[1..], pushed) && forall k :: 0 <= k < |q| ==> InOrder(Without(q, k), pushed)
    ensures InOrder(q[0 := q[0].(sent := true)], pushed) && InOrder(q[0 := q[0].(live := false)], pushed)
    ensures InOrder([q[0].(live := false)], pushed)
  {
    forall k | 0 <= k < |q| ensures InOrder(Without(q, k), pushed) {
      var r := Without(q, k);
      assert forall i :: 0 <= i < |r| ==> r[i] == q[if i < k then i else i + 1];
    }
  }

  lemma MoreInOrder<U>(q: seq<Cmd<U>>, c: Cmd<U>, pushed: set<nat>)
    requires InOrder(q, pushed) && forall i :: 0 <= i < |q| ==> q[i].uid < c.uid
    ensures InOrder(q + [c], pushed) && InOrder([c] + q, pushed + {c.uid}) && InOrder(q, pushed + {c.uid})
  {
  }

  ghost predicate QueuesInOrder<U>(s: State<U>, pushed: set<nat>) {
    InOrder(s.requests, pushed) && InOrder(s.responses, {})
  }

  lemma SendInOrder<U>(s: State<U>, op: Op<U>, pushed: set<nat>)
    requires Inv(s) && QueuesInOrder(s, pushed) && op.DoSend? && Enabled(s, op)
    ensures QueuesInOrder(Step(s, op), if PushesFront(op) then pushed + {s.accepted} else pushed)
  {
    hide IsResponse, InOrder, LivesAgree, WireAgrees, Awake, TimerArmed, OneSent;
    var c := Cmd(s.accepted, if op.id != 0 then op.id else NextId(s.lastId), op.pdu, false, op.live, op.data);
    Younger(s);
    MoreInOrder(s.requests, c, pushed);
    MoreInOrder(s.responses, c, {});
  }

  lemma Younger<U>(s: State<U>)
    requires OnePlace(s)
    ensures forall i :: 0 <= i < |s.requests| ==> s.requests[i].uid < s.accepted
    ensures forall i :: 0 <= i < |s.responses| ==> s.responses[i].uid < s.accepted
  {
    forall i | 0 <= i < |s.requests| ensures s.requests[i].uid < s.accepted {
      assert s.requests[i].uid in HeldUids(s);
    }
    forall i | 0 <= i < |s.responses| ensures s.responses[i].uid < s.accepted {
      assert s.responses[i].uid in HeldUids(s);
    }
  }

  lemma QueuesLessInOrder<U>(s: State<U>, pushed: set<nat>)
    requires QueuesInOrder(s, pushed)
    ensures var q := s.requests;
            q != [] ==>
              && InOrder(q[1..], pushed) && InOrder([q[0].(live := false)], pushed)
              && InOrder(q[0 := q[0].(sent := true)], pushed) && InOrder(q[0 := q[0].(live := false)], pushed)
              && forall k :: 0 <= k < |q| ==> InOrder(Without(q, k), pushed)
    ensures var q := s.responses;
            q != [] ==>
              && InOrder(q[1..], {}) && InOrder([q[0].(live := false)], {})
              && InOrder(q[0 := q[0].(sent := true)], {}) && InOrder(q[0 := q[0].(live := false)], {})
              && forall k :: 0 <= k < |q| ==> InOrder(Without(q, k), {})
    ensures InOrder<U>([], pushed) && InOrder<U>([], {})
  {
    if s.requests != [] {
      LessInOrder(s.requests, pushed);
    }
    if s.responses != [] {
      LessInOrder(s.responses, {});
    }
  }

  lemma WriteInOrder<U>(s: State<U>, hup: bool, ok: bool, pushed: set<nat>)
    requires QueuesInOrder(s, pushed)
    ensures QueuesInOrder(Write(s, hup, ok), pushed)
  {
    hide Expected, Opcode, InOrder, Without;
    QueuesLessInOrder(s, pushed);
  }

  lemma ReceiveInOrder<U>(s: State<U>, input: Input, pushed: set<nat>)
    requires QueuesInOrder(s, pushed) && (input.Pdu? ==> input.bytes != [])
    ensures QueuesInOrder(Receive(s, input), pushed)
  {
    hide IsResponse, Status, InOrder, Without;
    QueuesLessInOrder(s, pushed);
  }

  lemma CancelInOrder<U>(s: State<U>, id: nat, pushed: set<nat>)
    requires QueuesInOrder(s, pushed)
    ensures QueuesInOrder(Cancel(s, id).0, pushed) && QueuesInOrder(CancelAll(s), pushed)
  {
    hide IndexOf, InOrder, Without, Destroys;
    QueuesLessInOrder(s, pushed);
  }

  lemma OtherInOrder<U>(s: State<U>, op: Op<U>, pushed: set<nat>)
    requires QueuesInOrder(s, pushed) && !op.DoSend? && Enabled(s, op)
    ensures QueuesInOrder(Step(s, op), pushed)
  {
    hide Write, Receive, Cancel, CancelAll, InOrder, Aborts;
    match op
    case DoWrite(hup, ok) => WriteInOrder(s, hup, ok, pushed);
    case DoReceive(input) => ReceiveInOrder(s, input, pushed);
    case DoCancel(id) => CancelInOrder(s, id, pushed);
    case DoCancelAll => CancelInOrder(s, 0, pushed);
    case _ => NoneInOrder<U>(pushed);
  }

  lemma NoneInOrder<U>(pushed: set<nat>)
    ensures InOrder<U>([], pushed)
  {
  }

  /** First come, first served: in every state of every run responses are queued in the order they were sent, and
      so are requests, but for those that a result function pushed to the front. */
  lemma {:induction false} FirstComeFirstServed<U>(states: seq<State<U>>, ops: seq<Op<U>>, i: nat)
    requires IsRun(states, ops) && i < |states|
    ensures QueuesInOrder(states[i], Pushed(states, ops, i))
  {
    hide Step, Enabled, QueuesInOrder, Inv;
    if i == 0 {
      assert QueuesInOrder(Init<U>(), Pushed(states, ops, 0)) by {
        InitInOrder<U>(Pushed(states, ops, 0));
      }
    } else {
      FirstComeFirstServed(states, ops, i - 1);
      RunInv(states, ops, i - 1);
      PushedStep(states, ops, i);
      if ops[i - 1].DoSend? {
        SendInOrder(states[i - 1], ops[i - 1], Pushed(states, ops, i - 1));
      } else {
        OtherInOrder(states[i - 1], ops[i - 1], Pushed(states, ops, i - 1));
      }
    }
  }

  lemma InitInOrder<U>(pushed: set<nat>)
    ensures QueuesInOrder(Init<U>(), pushed)
  {
  }

  lemma PushedStep<U>(states: seq<State<U>>, ops: seq<Op<U>>, i: nat)
    requires 0 < i <= |ops| <= |states|
    ensures Pushed(states, ops, i) ==
            if PushesFront(ops[i - 1]) then Pushed(states, ops, i - 1) + {states[i - 1].accepted}
            else Pushed(states, ops, i - 1)
  {
  }

  // ---------------------------------------------------------------- the end

  /** After everything has been cancelled at most the request that is out is left, without its function, and
      however the run goes on no function of a command that was queued is run any more. */
  lemma CancelAllSilences<U>(states: seq<State<U>>, ops: seq<Op<U>>, i: nat, j: nat, c: Cmd<U>, k: nat)
    requires IsRun(states, ops) && i < j < |states| && ops[i] == DoCancelAll
    requires c in states[i].requests || c in states[i].responses
    ensures states[i + 1].responses == []
    ensures if HeadSent(states[i]) then states[i + 1].requests == [states[i].requests[0].(live := false)]
            else states[i + 1].requests == []
    ensures |states[i].log| <= k < |states[j].log| && states[j].log[k].Ran? ==> states[j].log[k].uid != c.uid
  {
    var s, t := states[i], states[i + 1];
    RunInv(states, ops, i);
    RunInv(states, ops, i + 1);
    LeftSilent(s, c);
    if |s.log| <= k < |states[j].log| && states[j].log[k].Ran? {
      RunNotBroken(states, ops, j, c.uid);
      LogGrows(states, ops, i + 1, j);
      CancelAllLog(s);
      NoRunsAfter(s.log, t.log, states[j].log, c.uid, k);
    }
  }

  lemma LeftSilent<U>(s: State<U>, c: Cmd<U>)
    requires Inv(s) && Inv(CancelAll(s)) && (c in s.requests || c in s.responses)
    ensures var t := CancelAll(s);
            && t.responses == []
            && t.requests == (if HeadSent(s) then [s.requests[0].(live := false)] else [])
            && !CanRun(Life(t.log, c.uid))
  {
    hide Life, Destroys, IsResponse, Opcode, Expected, WireFrom;
    var t := CancelAll(s);
    assert t.responses == [];
    assert s.accepted == t.accepted && c.uid < s.accepted by {
      Younger(s);
    }
    if c.uid in HeldUids(t) {
      assert t.current.None?;
    }
  }

  lemma CancelAllLog<U>(s: State<U>)
    ensures var t := CancelAll(s);
            s.log <= t.log && forall e <- t.log[|s.log|..] :: !e.Ran?
  {
    var first, second := CancelQueue(s.requests).1, CancelQueue(s.responses).1;
    Assoc(s.log, first, second);
    CancelRunsNothing(s.requests);
    CancelRunsNothing(s.responses);
    assert CancelAll(s).log[|s.log|..] == first + second;
  }

  lemma {:induction false} DestroysRunNothing<U>(q: seq<Cmd<U>>)
    ensures forall e <- Destroys(q) :: !e.Ran?
  {
    if q != [] {
      DestroysRunNothing(q[1..]);
    }
  }

  lemma CancelRunsNothing<U>(q: seq<Cmd<U>>)
    ensures forall e <- CancelQueue(q).1 :: !e.Ran?
  {
    DestroysRunNothing(q);
    if q != [] {
      DestroysRunNothing(q[1..]);
    }
  }

  lemma NoRunsAfter(before: seq<Event>, after: seq<Event>, log: seq<Event>, uid: nat, k: nat)
    requires before <= after <= log && |before| <= k < |log| && log[k].Ran?
    requires forall e <- after[|before|..] :: !e.Ran?
    requires !CanRun(Life(after, uid)) && Life(log, uid) != Broken
    ensures log[k].uid != uid
  {
    assert log == after + log[|after|..];
    LifeFromConcat(Unborn, after, log[|after|..], uid);
    NoRunFrom(Life(after, uid), log[|after|..], uid);
    assert forall m :: |before| <= m < |after| ==> !log[m].Ran? by {
      assert forall m :: |before| <= m < |after| ==> log[m] == after[|before|..][m - |before|];
    }
    assert log[k] == log[|after|..][k - |after|];
  }

  /** A destroyed engine has nothing left that the main loop could call. */
  lemma DestroyStops<U>(s: State<U>, hup: bool, ok: bool)
    requires Inv(s) && s.current.None?
    ensures var z := Destroy(s);
            && !Enabled(z, DoWrite(hup, ok)) && !Enabled(z, DoTimeout) && !Enabled(z, DoEndReceive)
            && z.requests == [] && z.responses == []
            && forall uid: nat :: uid < s.accepted ==> CountDestroyed(z.log, uid) == 1
  {
    forall uid: nat | uid < s.accepted ensures CountDestroyed(Destroy(s).log, uid) == 1 {
      DestroyFinishes(s, uid);
    }
  }
}
