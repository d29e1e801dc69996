/** What every reachable state of the engine satisfies, and what follows for whole runs. */
module EngineSafety {
  import opened Bytes
  import opened AttDefs
  import opened Engine

  // ---------------------------------------------------------------- one command's life

  /** Where a command is, judged from the events alone; `Broken` after an event out of order. */
  datatype Phase =
    | Unborn
    | Queued(sent: bool, live: bool)
    | Completing(owed: bool)
    | Dead
    | Broken

  /** The legal life of a command: accepted, written at most once, and then either destroyed in its queue
      or popped, its result function run unless it was silenced, and destroyed. */
  function Next(p: Phase, e: Event, uid: nat): Phase {
    if e.uid != uid then p
    else
      match (p, e)
      case (Unborn, Accepted(_, live)) => Queued(false, live)
      case (Queued(false, live), Wrote(_, _)) => Queued(true, live)
      case (Queued(true, _), Silenced(_)) => Queued(true, false)
      case (Queued(_, live), Popped(_)) => Completing(live)
      case (Completing(true), Ran(_, _)) => Completing(false)
      case (Queued(_, _), Destroyed(_)) => Dead
      case (Completing(false), Destroyed(_)) => Dead
      case _ => Broken
  }

  function LifeFrom(p: Phase, log: seq<Event>, uid: nat): Phase
    decreases |log|
  {
    if log == [] then p else LifeFrom(Next(p, log[0], uid), log[1..], uid)
  }

  function Life(log: seq<Event>, uid: nat): Phase {
    LifeFrom(Unborn, log, uid)
  }

  lemma {:induction false} LifeFromConcat(p: Phase, a: seq<Event>, b: seq<Event>, uid: nat)
    ensures LifeFrom(p, a + b, uid) == LifeFrom(LifeFrom(p, a, uid), b, uid)
    decreases |a|
  {
    if a == [] {
      assert a + b == b;
    } else {
      LifeFromConcat(Next(p, a[0], uid), a[1..], b, uid);
      assert (a + b)[1..] == a[1..] + b && (a + b)[0] == a[0];
    }
  }

  // ---------------------------------------------------------------- the wire

  /** The request between its PDU and its completion, judged from the events alone. */
  datatype Wire = Idle | Busy(uid: nat) | Clash

  /** A sequential protocol: while a request is outstanding only response PDUs may be written, and it is
      that request that is completed next. */
  function WireNext(w: Wire, e: Event): Wire {
    match e
    case Wrote(uid, opcode) =>
      if IsResponse(opcode) then w
      else if w != Idle then Clash
      else if Expected(opcode) != 0 then Busy(uid)
      else Idle
    case Popped(uid) => if w == Busy(uid) then Idle else if w == Idle then Idle else Clash
    case Destroyed(uid) => if w == Busy(uid) then Clash else w
    case _ => w
  }

  function WireFrom(w: Wire, log: seq<Event>): Wire
    decreases |log|
  {
    if log == [] then w else WireFrom(WireNext(w, log[0]), log[1..])
  }

  lemma {:induction false} WireFromConcat(w: Wire, a: seq<Event>, b: seq<Event>)
    ensures WireFrom(w, a + b) == WireFrom(WireFrom(w, a), b)
    decreases |a|
  {
    if a == [] {
      assert a + b == b;
    } else {
      WireFromConcat(WireNext(w, a[0]), a[1..], b);
      assert (a + b)[1..] == a[1..] + b && (a + b)[0] == a[0];
    }
  }

  // ---------------------------------------------------------------- the invariant

  ghost predicate HeadSent<U>(s: State<U>) {
    s.requests != [] && s.requests[0].sent
  }

  /** Only the head of `requests` can be marked sent, and only while no result function runs. */
  ghost predicate OneSent<U>(s: State<U>) {
    && (forall i :: 0 <= i < |s.requests| ==> !IsResponse(Opcode(s.requests[i])))
    && (forall i :: 0 <= i < |s.responses| ==> IsResponse(Opcode(s.responses[i])) && !s.responses[i].sent)
    && (forall i :: 1 <= i < |s.requests| ==> !s.requests[i].sent)
    && (HeadSent(s) ==> Expected(Opcode(s.requests[0])) != 0 && s.current.None?)
    && (s.stale ==> s.requests == [])
  }

  /** The timer is armed exactly while a request is outstanding. */
  ghost predicate TimerArmed<U>(s: State<U>) {
    !s.stale ==> (s.timeoutWatch <==> HeadSent(s))
  }

  /** Work to write never waits without a write watch. */
  ghost predicate Awake<U>(s: State<U>) {
    !s.stale && !s.ioFailed && (s.responses != [] || (s.requests != [] && !HeadSent(s))) ==> s.writeWatch
  }

  ghost predicate Distinct<U>(q: seq<Cmd<U>>) {
    forall i, j :: 0 <= i < j < |q| ==> q[i].uid != q[j].uid
  }

  function CurrentQueue<U>(s: State<U>): seq<Cmd<U>> {
    if s.current.Some? then [s.current.value] else []
  }

  ghost function Uids<U>(q: seq<Cmd<U>>): set<nat> {
    set i | 0 <= i < |q| :: q[i].uid
  }

  /** The commands some queue or the completion step in progress has. */
  ghost function HeldUids<U>(s: State<U>): set<nat> {
    Uids(s.requests) + Uids(s.responses) + Uids(CurrentQueue(s))
  }

  /** A command is in one place at most. */
  ghost predicate OnePlace<U>(s: State<U>) {
    && Distinct(s.requests) && Distinct(s.responses)
    && Uids(s.requests) !! Uids(s.responses) !! Uids(CurrentQueue(s))
    && forall uid <- HeldUids(s) :: uid < s.accepted
  }

  ghost predicate QueueLives<U>(log: seq<Event>, q: seq<Cmd<U>>) {
    forall i :: 0 <= i < |q| ==> Life(log, q[i].uid) == Queued(q[i].sent, q[i].live)
  }

  /** The events put every command exactly where the queues have it. */
  ghost predicate LivesAgree<U>(s: State<U>) {
    && QueueLives(s.log, s.requests)
    && QueueLives(s.log, s.responses)
    && (s.current.Some? ==> Life(s.log, s.current.value.uid) == Completing(false))
    && forall uid: nat ::
         uid !in HeldUids(s) ==> Life(s.log, uid) == if uid < s.accepted then Dead else Unborn
  }

  ghost predicate WireAgrees<U>(s: State<U>) {
    WireFrom(Idle, s.log) == if HeadSent(s) then Busy(s.requests[0].uid) else Idle
  }

  ghost predicate Inv<U>(s: State<U>) {
    && OneSent(s) && TimerArmed(s) && Awake(s)
    && OnePlace(s) && LivesAgree(s) && WireAgrees(s)
  }

  lemma InitInv<U>()
    ensures Inv(Init<U>())
  {
  }

  // ---------------------------------------------------------------- commands are conserved

  ghost predicate Conserved<U>(s: State<U>) {
    OnePlace(s) && LivesAgree(s)
  }

  lemma LifeSnoc(log: seq<Event>, e: Event)
    ensures forall uid: nat :: Life(log + [e], uid) == Next(Life(log, uid), e, uid)
  {
    forall uid: nat ensures Life(log + [e], uid) == Next(Life(log, uid), e, uid) {
      LifeFromConcat(Unborn, log, [e], uid);
    }
  }

  lemma UidsAdd<U>(q: seq<Cmd<U>>, c: Cmd<U>)
    ensures Uids([c] + q) == Uids(q) + {c.uid} && Uids(q + [c]) == Uids(q) + {c.uid}
    ensures Distinct(q) && c.uid !in Uids(q) ==> Distinct([c] + q) && Distinct(q + [c])
  {
    assert ([c] + q)[0] == c && (q + [c])[|q|] == c;
    assert forall i :: 0 <= i < |q| ==> ([c] + q)[i + 1] == q[i] && (q + [c])[i] == q[i];
  }

  lemma UidsWithout<U>(q: seq<Cmd<U>>, k: nat)
    requires Distinct(q) && k < |q|
    ensures Uids(Without(q, k)) == Uids(q) - {q[k].uid} && q[k].uid in Uids(q)
    ensures Distinct(Without(q, k))
    ensures forall i :: 0 <= i < |q| - 1 ==> Without(q, k)[i] == q[if i < k then i else i + 1]
  {
    var r := Without(q, k);
    forall uid | uid in Uids(q) && uid != q[k].uid ensures uid in Uids(r) {
      var i :| 0 <= i < |q| && q[i].uid == uid;
      assert r[if i < k then i else i - 1] == q[i];
    }
  }

  lemma ConservedDropRequest<U>(s: State<U>, k: nat)
    requires Conserved(s) && k < |s.requests|
    ensures Conserved(s.(requests := Without(s.requests, k), log := s.log + [Destroyed(s.requests[k].uid)]))
  {
    UidsWithout(s.requests, k);
    LifeSnoc(s.log, Destroyed(s.requests[k].uid));
  }

  lemma ConservedDropResponse<U>(s: State<U>, k: nat)
    requires Conserved(s) && k < |s.responses|
    ensures Conserved(s.(responses := Without(s.responses, k), log := s.log + [Destroyed(s.responses[k].uid)]))
  {
    UidsWithout(s.responses, k);
    LifeSnoc(s.log, Destroyed(s.responses[k].uid));
  }

  lemma ConservedPop<U>(s: State<U>, status: byte)
    requires Conserved(s) && s.current.None? && s.requests != []
    ensures var c := s.requests[0];
            Conserved(s.(requests := s.requests[1..], current := Some(c),
                         log := s.log + [Popped(c.uid)] + if c.live then [Ran(c.uid, status)] else []))
  {
    var c := s.requests[0];
    UidsWithout(s.requests, 0);
    assert Without(s.requests, 0) == s.requests[1..];
    var popped := s.log + [Popped(c.uid)];
    LifeSnoc(s.log, Popped(c.uid));
    LifeSnoc(popped, Ran(c.uid, status));
    var log := popped + if c.live then [Ran(c.uid, status)] else [];
    assert !c.live ==> log == popped;
    assert forall uid: nat :: uid != c.uid ==> Life(log, uid) == Life(s.log, uid);
    assert Life(log, c.uid) == Completing(false);
    var t := s.(requests := s.requests[1..], current := Some(c), log := log);
    assert CurrentQueue(t)[0] == c;
    assert HeldUids(t) == HeldUids(s);
    assert QueueLives(log, t.requests) by {
      assert forall i :: 0 <= i < |t.requests| ==> t.requests[i] == s.requests[i + 1];
    }
  }

  lemma ConservedFinish<U>(s: State<U>)
    requires Conserved(s) && s.current.Some?
    ensures Conserved(EndReceive(s))
  {
    LifeSnoc(s.log, Destroyed(s.current.value.uid));
  }

  lemma ConservedUpdate<U>(s: State<U>, c: Cmd<U>, e: Event)
    requires Conserved(s) && s.requests != [] && c.uid == s.requests[0].uid == e.uid
    requires Next(Queued(s.requests[0].sent, s.requests[0].live), e, e.uid) == Queued(c.sent, c.live)
    ensures Conserved(s.(requests := s.requests[0 := c], log := s.log + [e]))
  {
    LifeSnoc(s.log, e);
    var q := s.requests[0 := c];
    assert forall i :: 0 <= i < |q| ==> q[i].uid == s.requests[i].uid;
    assert Uids(q) == Uids(s.requests);
  }

  lemma ConservedWroteResponse<U>(s: State<U>, c: Cmd<U>, e: Event)
    requires Conserved(s) && s.responses != [] && c.uid == s.responses[0].uid == e.uid
    requires Next(Queued(s.responses[0].sent, s.responses[0].live), e, e.uid) == Queued(c.sent, c.live)
    ensures Conserved(s.(responses := s.responses[0 := c], log := s.log + [e]))
  {
    LifeSnoc(s.log, e);
    var q := s.responses[0 := c];
    assert forall i :: 0 <= i < |q| ==> q[i].uid == s.responses[i].uid;
    assert Uids(q) == Uids(s.responses);
  }

  lemma ConservedEnter<U>(s: State<U>, c: Cmd<U>, requests: seq<Cmd<U>>, responses: seq<Cmd<U>>)
    requires Conserved(s) && c.uid == s.accepted && !c.sent
    requires (requests == s.requests && responses == s.responses + [c])
             || (responses == s.responses && (requests == s.requests + [c] || requests == [c] + s.requests))
    ensures Conserved(s.(requests := requests, responses := responses, accepted := s.accepted + 1,
                         log := s.log + [Accepted(c.uid, c.live)]))
  {
    LifeSnoc(s.log, Accepted(c.uid, c.live));
    UidsAdd(s.requests, c);
    UidsAdd(s.responses, c);
    assert c.uid !in HeldUids(s);
  }

  lemma ConservedSend<U>(s: State<U>, id: nat, pdu: seq<byte>, live: bool, data: U) returns (t: State<U>)
    requires Conserved(s) && pdu != []
    ensures t == Send(s, id, pdu, live, data).0 && Conserved(t)
  {
    t := Send(s, id, pdu, live, data).0;
    if !s.stale {
      var c := Cmd(s.accepted, if id != 0 then id else NextId(s.lastId), pdu, false, live, data);
      var u := s.(requests := t.requests, responses := t.responses, accepted := s.accepted + 1,
                  log := s.log + [Accepted(c.uid, c.live)]);
      ConservedEnter(s, c, t.requests, t.responses);
      SameQueues(u, t);
    }
  }

  /** Conservation looks at the queues, the completion step and the events alone. */
  lemma SameQueues<U>(s: State<U>, t: State<U>)
    requires Conserved(s) && t.requests == s.requests && t.responses == s.responses && t.current == s.current
    requires t.accepted == s.accepted && t.log == s.log
    ensures Conserved(t)
  {
    assert HeldUids(t) == HeldUids(s);
  }

  /** Dropping everything behind the first `k` commands of a queue. */
  lemma {:induction false} ConservedDropRequests<U>(s: State<U>, k: nat)
    requires Conserved(s) && k <= |s.requests|
    ensures Conserved(s.(requests := s.requests[..k], log := s.log + Destroys(s.requests[k..])))
    decreases |s.requests|
  {
    if k < |s.requests| {
      var t := s.(requests := Without(s.requests, k), log := s.log + [Destroyed(s.requests[k].uid)]);
      ConservedDropRequest(s, k);
      ConservedDropRequests(t, k);
      assert t.requests[..k] == s.requests[..k];
      assert t.requests[k..] == s.requests[k + 1..] == s.requests[k..][1..];
      Assoc(s.log, [Destroyed(s.requests[k].uid)], Destroys(t.requests[k..]));
    } else {
      assert s.requests[..k] == s.requests && s.log + [] == s.log;
    }
  }

  lemma {:induction false} ConservedDropResponses<U>(s: State<U>)
    requires Conserved(s)
    ensures Conserved(s.(responses := [], log := s.log + Destroys(s.responses)))
    decreases |s.responses|
  {
    if s.responses != [] {
      var t := s.(responses := Without(s.responses, 0), log := s.log + [Destroyed(s.responses[0].uid)]);
      ConservedDropResponse(s, 0);
      ConservedDropResponses(t);
      assert t.responses == s.responses[1..];
      Assoc(s.log, [Destroyed(s.responses[0].uid)], Destroys(t.responses));
    } else {
      assert s.log + [] == s.log;
    }
  }

  lemma {:induction false} ConservedAborts<U>(s: State<U>, status: byte)
    requires Conserved(s) && s.current.None?
    ensures Conserved(s.(requests := [], log := s.log + Aborts(s.requests, status)))
    decreases |s.requests|
  {
    if s.requests == [] {
      assert s.log + [] == s.log;
    } else {
      var c := s.requests[0];
      var ran := [Popped(c.uid)] + if c.live then [Ran(c.uid, status)] else [];
      ConservedPop(s, status);
      Assoc(s.log, [Popped(c.uid)], if c.live then [Ran(c.uid, status)] else []);
      var t := s.(requests := s.requests[1..], current := Some(c), log := s.log + ran);
      ConservedFinish(t);
      var u := EndReceive(t);
      ConservedAborts(u, ECODE_ABORTED);
      Assoc(s.log, ran, [Destroyed(c.uid)]);
      Assoc(s.log, ran + [Destroyed(c.uid)], Aborts(u.requests, ECODE_ABORTED));
      assert Aborts(s.requests, status) == ran + [Destroyed(c.uid)] + Aborts(u.requests, ECODE_ABORTED);
    }
  }

  // ---------------------------------------------------------------- the wire stays sequential

  lemma {:induction false} WireDestroys<U>(w: Wire, q: seq<Cmd<U>>)
    requires w != Clash && (w.Busy? ==> w.uid !in Uids(q))
    ensures WireFrom(w, Destroys(q)) == w
    decreases |q|
  {
    if q != [] {
      assert q[0].uid in Uids(q);
      assert forall i :: 0 <= i < |q| - 1 ==> q[1..][i] == q[i + 1];
      assert Destroys(q)[1..] == Destroys(q[1..]);
      WireDestroys(w, q[1..]);
    }
  }

  lemma {:induction false} WireAborts<U>(w: Wire, q: seq<Cmd<U>>, status: byte)
    requires w == Idle || (q != [] && w == Busy(q[0].uid))
    ensures WireFrom(w, Aborts(q, status)) == Idle
    decreases |q|
  {
    if q != [] {
      var c := q[0];
      var first := [Popped(c.uid)] + (if c.live then [Ran(c.uid, status)] else []) + [Destroyed(c.uid)];
      var ran := if c.live then [Ran(c.uid, status)] else [];
      WireFromConcat(w, [Popped(c.uid)] + ran, [Destroyed(c.uid)]);
      WireFromConcat(w, [Popped(c.uid)], ran);
      assert WireFrom(w, [Popped(c.uid)]) == Idle && WireFrom(Idle, ran) == Idle;
      WireFromConcat(w, first, Aborts(q[1..], ECODE_ABORTED));
      WireAborts(Idle, q[1..], ECODE_ABORTED);
    }
  }

  lemma WireSnoc(log: seq<Event>, e: Event)
    ensures WireFrom(Idle, log + [e]) == WireNext(WireFrom(Idle, log), e)
  {
    WireFromConcat(Idle, log, [e]);
  }

  // ---------------------------------------------------------------- every step keeps the invariant

  /** The part of the invariant about flags and watches. */
  ghost predicate Flags<U>(s: State<U>) {
    OneSent(s) && TimerArmed(s) && Awake(s)
  }

  lemma SendFlags<U>(s: State<U>, id: nat, pdu: seq<byte>, live: bool, data: U) returns (t: State<U>)
    requires Flags(s) && Enabled(s, DoSend(id, pdu, live, data)) && !s.stale
    ensures t == Send(s, id, pdu, live, data).0 && Flags(t)
    ensures HeadSent(t) == HeadSent(s) && (HeadSent(s) ==> t.requests[0] == s.requests[0])
  {
    var c := Cmd(s.accepted, if id != 0 then id else NextId(s.lastId), pdu, false, live, data);
    t := Send(s, id, pdu, live, data).0;
    if IsResponse(pdu[0]) {
      assert t.responses == s.responses + [c] && t.requests == s.requests;
    } else if id != 0 {
      assert t.requests == [c] + s.requests;
    } else {
      assert t.requests == s.requests + [c];
    }
  }

  lemma SendInv<U>(s: State<U>, id: nat, pdu: seq<byte>, live: bool, data: U)
    requires Inv(s) && Enabled(s, DoSend(id, pdu, live, data))
    ensures Inv(Send(s, id, pdu, live, data).0)
  {
    if !s.stale {
      var t := SendFlags(s, id, pdu, live, data);
      t := ConservedSend(s, id, pdu, live, data);
      WireSnoc(s.log, Accepted(s.accepted, live));
      assert WireAgrees(t);
    }
  }

  lemma ConservedWriteResponse<U>(s: State<U>, sent: Cmd<U>, e: Event)
    requires Conserved(s) && s.responses != [] && !s.responses[0].sent
    requires sent == s.responses[0].(sent := true) && e == Wrote(sent.uid, Opcode(sent))
    ensures Conserved(s.(responses := s.responses[0 := sent], log := s.log + [e]))
    ensures Conserved(s.(responses := s.responses[1..], log := s.log + [e] + [Destroyed(sent.uid)]))
  {
    ConservedWroteResponse(s, sent, e);
    var t := s.(responses := s.responses[0 := sent], log := s.log + [e]);
    ConservedDropResponse(t, 0);
    assert Without(t.responses, 0) == s.responses[1..];
  }

  lemma ConservedWriteRequest<U>(s: State<U>, sent: Cmd<U>, e: Event)
    requires Conserved(s) && s.requests != [] && !s.requests[0].sent
    requires sent == s.requests[0].(sent := true) && e == Wrote(sent.uid, Opcode(sent))
    ensures Conserved(s.(requests := s.requests[0 := sent], log := s.log + [e]))
    ensures Conserved(s.(requests := s.requests[1..], log := s.log + [e] + [Destroyed(sent.uid)]))
  {
    ConservedUpdate(s, sent, e);
    var t := s.(requests := s.requests[0 := sent], log := s.log + [e]);
    ConservedDropRequest(t, 0);
    assert Without(t.requests, 0) == s.requests[1..];
  }

  lemma ConservedWrite<U>(s: State<U>, hup: bool, ok: bool) returns (t: State<U>)
    requires Conserved(s) && OneSent(s)
    ensures t == Write(s, hup, ok) && Conserved(t)
  {
    t := Write(s, hup, ok);
    if s.stale || hup || !ok {
      SameQueues(s, t);
    } else if s.responses != [] {
      var c := s.responses[0];
      RequestsAreNotResponses(Opcode(c));
      var e := Wrote(c.uid, Opcode(c));
      ConservedWriteResponse(s, c.(sent := true), e);
      SameQueues(s.(responses := s.responses[1..], log := s.log + [e] + [Destroyed(c.uid)]), t);
    } else if s.requests != [] && !s.requests[0].sent {
      var c := s.requests[0];
      var e := Wrote(c.uid, Opcode(c));
      ConservedWriteRequest(s, c.(sent := true), e);
      if Expected(Opcode(c)) == 0 {
        SameQueues(s.(requests := s.requests[1..], log := s.log + [e] + [Destroyed(c.uid)]), t);
      } else {
        SameQueues(s.(requests := s.requests[0 := c.(sent := true)], log := s.log + [e]), t);
      }
    } else {
      SameQueues(s, t);
    }
  }

  lemma WireWrite<U>(s: State<U>, hup: bool, ok: bool)
    requires Inv(s)
    ensures WireAgrees(Write(s, hup, ok))
  {
    if s.responses != [] {
      var c := s.responses[0];
      RequestsAreNotResponses(Opcode(c));
      assert c.uid in Uids(s.responses);
      assert HeadSent(s) ==> s.requests[0].uid in Uids(s.requests);
      WireSnoc(s.log, Wrote(c.uid, Opcode(c)));
      WireSnoc(s.log + [Wrote(c.uid, Opcode(c))], Destroyed(c.uid));
    } else if s.requests != [] && !s.requests[0].sent {
      var c := s.requests[0];
      WireSnoc(s.log, Wrote(c.uid, Opcode(c)));
      WireSnoc(s.log + [Wrote(c.uid, Opcode(c))], Destroyed(c.uid));
    }
  }

  lemma WriteInv<U>(s: State<U>, hup: bool, ok: bool)
    requires Inv(s) && Enabled(s, DoWrite(hup, ok))
    ensures Inv(Write(s, hup, ok))
  {
    var t := ConservedWrite(s, hup, ok);
    WireWrite(s, hup, ok);
    if s.responses != [] {
      RequestsAreNotResponses(Opcode(s.responses[0]));
    }
  }

  lemma ReceiveInv<U>(s: State<U>, input: Input)
    requires Inv(s) && Enabled(s, DoReceive(input))
    ensures Inv(Receive(s, input))
  {
    if input.Pdu? && s.requests != [] {
      var c, status := s.requests[0], Status(s.requests[0], input.bytes);
      ConservedPop(s, status);
      WireSnoc(s.log, Popped(c.uid));
      WireSnoc(s.log + [Popped(c.uid)], Ran(c.uid, status));
      assert s.log + [Popped(c.uid)] + [] == s.log + [Popped(c.uid)];
    }
  }

  lemma EndReceiveInv<U>(s: State<U>)
    requires Inv(s) && Enabled(s, DoEndReceive)
    ensures Inv(EndReceive(s))
  {
    ConservedFinish(s);
    WireSnoc(s.log, Destroyed(s.current.value.uid));
  }

  lemma TimeoutInv<U>(s: State<U>)
    requires Inv(s) && Enabled(s, DoTimeout)
    ensures Inv(Timeout(s))
  {
    ConservedAborts(s, ECODE_TIMEOUT);
    WireAborts(WireFrom(Idle, s.log), s.requests, ECODE_TIMEOUT);
    WireFromConcat(Idle, s.log, Aborts(s.requests, ECODE_TIMEOUT));
  }

  lemma SilenceInv<U>(s: State<U>)
    requires Inv(s) && HeadSent(s)
    ensures var c := s.requests[0];
            Inv(s.(requests := s.requests[0 := c.(live := false)], log := s.log + [Silenced(c.uid)]))
  {
    var c := s.requests[0];
    ConservedUpdate(s, c.(live := false), Silenced(c.uid));
    WireSnoc(s.log, Silenced(c.uid));
  }

  lemma DropRequestInv<U>(s: State<U>, i: nat)
    requires Inv(s) && i < |s.requests| && !s.requests[i].sent
    ensures Inv(s.(requests := Without(s.requests, i), log := s.log + [Destroyed(s.requests[i].uid)]))
  {
    ConservedDropRequest(s, i);
    WireSnoc(s.log, Destroyed(s.requests[i].uid));
    assert HeadSent(s) ==> i > 0 && s.requests[0].uid != s.requests[i].uid;
  }

  lemma DropResponseInv<U>(s: State<U>, j: nat)
    requires Inv(s) && j < |s.responses|
    ensures Inv(s.(responses := Without(s.responses, j), log := s.log + [Destroyed(s.responses[j].uid)]))
  {
    ConservedDropResponse(s, j);
    assert s.responses[j].uid in Uids(s.responses);
    assert HeadSent(s) ==> s.requests[0].uid in Uids(s.requests);
    WireSnoc(s.log, Destroyed(s.responses[j].uid));
  }

  lemma CancelInv<U>(s: State<U>, id: nat)
    requires Inv(s)
    ensures Inv(Cancel(s, id).0)
  {
    var i, j := IndexOf(s.requests, id), IndexOf(s.responses, id);
    if i < |s.requests| {
      if i == 0 && s.requests[0].sent {
        SilenceInv(s);
      } else {
        DropRequestInv(s, i);
      }
    } else if j < |s.responses| {
      DropResponseInv(s, j);
    }
  }

  lemma DropTailInv<U>(s: State<U>)
    requires Inv(s)
    ensures var k := if HeadSent(s) then 1 else 0;
            Inv(s.(requests := s.requests[..k], log := s.log + Destroys(s.requests[k..])))
  {
    var k := if HeadSent(s) then 1 else 0;
    ConservedDropRequests(s, k);
    var w := WireFrom(Idle, s.log);
    forall i | 0 <= i < |s.requests[k..]| && w.Busy? ensures s.requests[k..][i].uid != w.uid {
      assert s.requests[k..][i] == s.requests[i + k];
    }
    WireDestroys(w, s.requests[k..]);
    WireFromConcat(Idle, s.log, Destroys(s.requests[k..]));
  }

  lemma DropResponsesInv<U>(s: State<U>)
    requires Inv(s)
    ensures Inv(s.(responses := [], log := s.log + Destroys(s.responses)))
  {
    ConservedDropResponses(s);
    var w := WireFrom(Idle, s.log);
    assert w.Busy? ==> w.uid !in Uids(s.responses) by {
      assert w.Busy? ==> s.requests[0].uid in Uids(s.requests);
    }
    WireDestroys(w, s.responses);
    WireFromConcat(Idle, s.log, Destroys(s.responses));
  }

  lemma CancelAllInv<U>(s: State<U>)
    requires Inv(s)
    ensures Inv(CancelAll(s))
  {
    var t, k := s, 0;
    if HeadSent(s) {
      var c := s.requests[0];
      SilenceInv(s);
      t, k := s.(requests := s.requests[0 := c.(live := false)], log := s.log + [Silenced(c.uid)]), 1;
      Assoc(s.log, [Silenced(c.uid)], Destroys(s.requests[1..]));
    }
    assert t.requests[k..] == s.requests[k..] && t.requests[..k] == CancelQueue(s.requests).0;
    DropTailInv(t);
    DropResponsesInv(t.(requests := t.requests[..k], log := t.log + Destroys(t.requests[k..])));
  }

  lemma StepInv<U>(s: State<U>, op: Op<U>)
    requires Inv(s) && Enabled(s, op)
    ensures Inv(Step(s, op))
  {
    match op
    case DoSend(id, pdu, live, data) => SendInv(s, id, pdu, live, data);
    case DoWrite(hup, ok) => WriteInv(s, hup, ok);
    case DoReceive(input) => ReceiveInv(s, input);
    case DoEndReceive => EndReceiveInv(s);
    case DoTimeout => TimeoutInv(s);
    case DoCancel(id) => CancelInv(s, id);
    case DoCancelAll => CancelAllInv(s);
  }

  /** Every state of every run satisfies the invariant. */
  lemma {:induction false} RunInv<U>(states: seq<State<U>>, ops: seq<Op<U>>, i: nat)
    requires IsRun(states, ops) && i < |states|
    ensures Inv(states[i])
  {
    if i == 0 {
      InitInv<U>();
    } else {
      RunInv(states, ops, i - 1);
      StepInv(states[i - 1], ops[i - 1]);
    }
  }
}
