/** Commands that a procedure has queued: the ones whose data is `Some`.  Everything else in the queues
    belongs to other users of the engine. */
module Holding {
  import opened Bytes
  import opened AttDefs
  import opened Engine

  /** What the commands of the procedure in a queue carry, in queue order. */
  function Mine<P>(q: seq<Cmd<Option<P>>>): seq<P> {
    if q == [] then []
    else (if q[0].data.Some? then [q[0].data.value] else []) + Mine(q[1..])
  }

  lemma {:induction false} MineConcat<P>(a: seq<Cmd<Option<P>>>, b: seq<Cmd<Option<P>>>)
    ensures Mine(a + b) == Mine(a) + Mine(b)
  {
    if a == [] {
      assert a + b == b;
    } else {
      MineConcat(a[1..], b);
      assert (a + b)[1..] == a[1..] + b && (a + b)[0] == a[0];
      Assoc(if a[0].data.Some? then [a[0].data.value] else [], Mine(a[1..]), Mine(b));
    }
  }

  lemma MineOne<P>(c: Cmd<Option<P>>)
    ensures Mine([c]) == if c.data.Some? then [c.data.value] else []
  {
    assert [c][1..] == [];
  }

  lemma MineHead<P>(q: seq<Cmd<Option<P>>>)
    requires q != []
    ensures Mine(q) == Mine([q[0]]) + Mine(q[1..])
  {
    assert q == [q[0]] + q[1..];
    MineConcat([q[0]], q[1..]);
  }

  lemma {:induction false} MineNone<P>(q: seq<Cmd<Option<P>>>)
    ensures Mine(q) == [] <==> forall i :: 0 <= i < |q| ==> q[i].data.None?
  {
    if q != [] {
      MineNone(q[1..]);
      assert forall i :: 1 <= i < |q| ==> q[i] == q[1..][i - 1];
    }
  }

  lemma MineAdd<P>(q: seq<Cmd<Option<P>>>, c: Cmd<Option<P>>)
    ensures c.data.None? ==> Mine([c] + q) == Mine(q) == Mine(q + [c])
    ensures c.data.Some? ==> Mine([c] + q) == [c.data.value] + Mine(q) && Mine(q + [c]) == Mine(q) + [c.data.value]
  {
    MineOne(c);
    MineConcat([c], q);
    MineConcat(q, [c]);
  }

  /** Dropping a command from a queue drops what it carries, nothing else. */
  lemma MineWithout<P>(q: seq<Cmd<Option<P>>>, k: nat)
    requires k < |q|
    ensures q[k].data.None? ==> Mine(Without(q, k)) == Mine(q)
    ensures |Mine(q)| == |Mine(Without(q, k))| + if q[k].data.Some? then 1 else 0
  {
    assert q == q[..k] + ([q[k]] + q[k + 1..]);
    MineOne(q[k]);
    MineConcat([q[k]], q[k + 1..]);
    MineConcat(q[..k], [q[k]] + q[k + 1..]);
    MineConcat(q[..k], q[k + 1..]);
  }

  lemma MineUpdate<P>(q: seq<Cmd<Option<P>>>, c: Cmd<Option<P>>)
    requires q != [] && c.data == q[0].data
    ensures Mine(q[0 := c]) == Mine(q)
  {
    assert q[0 := c][1..] == q[1..];
  }

  /** No PDU in a list of events. */
  ghost predicate Quiet(log: seq<Event>) {
    forall e <- log :: !e.Wrote?
  }

  lemma {:induction false} DestroysQuiet<U>(q: seq<Cmd<U>>)
    ensures Quiet(Destroys(q))
  {
    if q != [] {
      DestroysQuiet(q[1..]);
    }
  }

  /** Cancelling a whole queue writes nothing and keeps at most the command at its head. */
  lemma CancelQueueMine<P>(q: seq<Cmd<Option<P>>>)
    ensures Quiet(CancelQueue(q).1)
    ensures Mine(CancelQueue(q).0) == if q != [] && q[0].sent then Mine([q[0]]) else []
  {
    DestroysQuiet(q);
    if q != [] {
      DestroysQuiet(q[1..]);
      MineOne(q[0]);
      MineOne(q[0].(live := false));
    }
  }

  // ---------------------------------------------------------------- steps of other users

  /** A command of another user, at whichever end of whichever queue it goes. */
  lemma OthersSend<P>(e: State<Option<P>>, id: nat, pdu: seq<byte>, live: bool)
    returns (e1: State<Option<P>>, c: Cmd<Option<P>>)
    requires !e.stale && pdu != []
    ensures e1 == Send(e, id, pdu, live, None).0 && c.data == None && e1.current == e.current
    ensures Mine(e1.requests) == Mine(e.requests) && Mine(e1.responses) == Mine(e.responses)
    ensures || e1.requests == e.requests || e1.requests == e.requests + [c]
            || (id != 0 && !IsResponse(pdu[0]) && e1.requests == [c] + e.requests)
    ensures e1.log == e.log + [Accepted(e.accepted, live)]
  {
    hide IsResponse, NextId;
    c := Cmd(e.accepted, if id != 0 then id else NextId(e.lastId), pdu, false, live, None);
    e1 := Send(e, id, pdu, live, None).0;
    MineAdd(e.responses, c);
    MineAdd(e.requests, c);
  }

  /** A PDU that does not complete a command of ours: at most the head of another user is popped. */
  lemma OthersReceive<P>(e: State<Option<P>>, input: Input) returns (e1: State<Option<P>>)
    requires input.Pdu? ==> input.bytes != []
    requires !e.stale && input.Pdu? && IsResponse(input.bytes[0]) && e.requests != [] ==> e.requests[0].data.None?
    ensures e1 == Receive(e, input) && e1.responses == e.responses && Mine(e1.requests) == Mine(e.requests)
    ensures || (e1.requests == e.requests && e1.current == e.current)
            || (e.requests != [] && e1.requests == e.requests[1..] && e1.current == Some(e.requests[0])
                && e.requests[0].data.None?)
    ensures e.log <= e1.log && forall j :: |e.log| <= j < |e1.log| ==> !e1.log[j].Wrote?
  {
    hide IsResponse, Status;
    e1 := Receive(e, input);
    if e.requests != [] {
      MineAdd(e.requests[1..], e.requests[0]);
      assert e.requests == [e.requests[0]] + e.requests[1..];
    }
  }

  /** What writing the head of the queue does. */
  lemma WriteShape<U>(e: State<U>) returns (e1: State<U>)
    requires e.responses == [] && e.requests != []
    ensures e1 == Write(e, false, true) && e1.responses == [] && e1.current == e.current
    ensures var c := e.requests[0];
            if e.stale || c.sent then e1.requests == e.requests && e1.log == e.log
            else if Expected(Opcode(c)) == 0 then
              e1.requests == e.requests[1..] && e1.log == e.log + [Wrote(c.uid, Opcode(c))] + [Destroyed(c.uid)]
            else
              e1.requests == e.requests[0 := c.(sent := true)] && e1.log == e.log + [Wrote(c.uid, Opcode(c))]
  {
    hide Expected;
    e1 := Write(e, false, true);
  }
}
