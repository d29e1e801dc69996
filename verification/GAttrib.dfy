/** `gattrib.c` itself: the queues of command objects and the handlers that update them in place. */
module GAttrib {
  import opened Bytes
  import opened AttDefs
  import opened Engine
  import opened EngineSafety

  /** `struct command`; only `sent` and `func` (here `live`) change after allocation. */
  class Command<U> {
    ghost const uid: nat
    const id: nat
    const pdu: seq<byte>
    const data: U
    var sent: bool
    var live: bool

    constructor (ghost uid: nat, id: nat, pdu: seq<byte>, live: bool, data: U)
      ensures Value() == Cmd(uid, id, pdu, false, live, data)
    {
      this.uid, this.id, this.pdu, this.data := uid, id, pdu, data;
      this.sent, this.live := false, live;
    }

    function Opcode(): byte {
      if pdu == [] then 0 else pdu[0]
    }

    ghost function Value(): Cmd<U>
      reads this
    {
      Cmd(uid, id, pdu, sent, live, data)
    }
  }

  ghost function Values<U>(q: seq<Command<U>>): (s: seq<Cmd<U>>)
    reads q
    ensures |s| == |q|
  {
    seq(|q|, i requires 0 <= i < |q| reads q => q[i].Value())
  }

  lemma ValuesAdd<U>(q: seq<Command<U>>, c: Command<U>)
    ensures Values(q + [c]) == Values(q) + [c.Value()]
    ensures Values([c] + q) == [c.Value()] + Values(q)
  {
  }

  lemma ValuesTail<U>(q: seq<Command<U>>, k: nat)
    requires k <= |q|
    ensures Values(q[k..]) == Values(q)[k..]
  {
  }

  lemma ValuesWithout<U>(q: seq<Command<U>>, k: nat)
    requires k < |q|
    ensures Values(q[..k] + q[k + 1..]) == Without(Values(q), k)
  {
  }

  /** `struct _GAttrib`.  `current` is the local `cmd` of `received_data`, kept between the two halves of
      that handler while the result function runs. */
  class Attrib<U> {
    var requests: seq<Command<U>>
    var responses: seq<Command<U>>
    var current: Option<Command<U>>
    var writeWatch: bool
    var timeoutWatch: bool
    var stale: bool
    var nextCmdId: nat
    ghost var accepted: nat
    ghost var ioFailed: bool
    ghost var log: seq<Event>

    ghost function Commands(): set<Command<U>>
      reads this
    {
      (set c | c in requests) + (set c | c in responses) + (if current.Some? then {current.value} else {})
    }

    ghost function View(): State<U>
      reads this, Commands()
    {
      State(Values(requests), Values(responses),
            CurrentValue(),
            writeWatch, timeoutWatch, stale, nextCmdId, accepted, ioFailed, log)
    }

    ghost function CurrentValue(): Option<Cmd<U>>
      reads this, Commands()
    {
      if current.Some? then Some(current.value.Value()) else None
    }

    ghost predicate Valid()
      reads this, Commands()
    {
      Inv(View())
    }

    /** `g_attrib_new`. */
    constructor ()
      ensures View() == Init() && Valid()
    {
      requests, responses, current := [], [], None;
      writeWatch, timeoutWatch, stale, nextCmdId := false, false, false, 0;
      accepted, ioFailed, log := 0, false, [];
      new;
      InitInv<U>();
    }

    /** `wake_up_sender`. */
    method WakeUpSender()
      modifies this`writeWatch
      ensures View() == old(View()).(writeWatch := true) && Commands() == old(Commands())
    {
      if writeWatch {
        return;
      }
      writeWatch := true;
    }

    /** `g_attrib_send`. */
    method Send(id: nat, pdu: seq<byte>, live: bool, data: U) returns (rid: nat)
      requires Valid() && Enabled(View(), DoSend(id, pdu, live, data))
      modifies this
      ensures Valid() && View() == Engine.Send(old(View()), id, pdu, live, data).0
      ensures rid == Engine.Send(old(View()), id, pdu, live, data).1
      ensures fresh(Commands() - old(Commands()))
    {
      SendInv(View(), id, pdu, live, data);
      rid := Submit(id, pdu, live, data);
    }

    method Submit(id: nat, pdu: seq<byte>, live: bool, data: U) returns (rid: nat)
      requires pdu != []
      modifies this
      ensures View() == Engine.Send(old(View()), id, pdu, live, data).0
      ensures rid == Engine.Send(old(View()), id, pdu, live, data).1
      ensures fresh(Commands() - old(Commands()))
    {
      hide InsertCmd, NextId;
      if stale {
        return 0;
      }
      ghost var was := View();
      rid := TakeId(id);
      var c := new Command(accepted, rid, pdu, live, data);
      ghost var cmd := c.Value();
      Insert(c, id);
      Account(live);
      SendInserts(was, id, pdu, live, data, cmd);
    }

    /** The id of a new command: the one given, or the next of the counter. */
    method TakeId(id: nat) returns (rid: nat)
      modifies this`nextCmdId
      ensures rid == if id != 0 then id else NextId(old(nextCmdId))
      ensures View() == old(View()).(lastId := if id != 0 then old(nextCmdId) else rid)
      ensures Commands() == old(Commands())
    {
      rid := id;
      if id == 0 {
        nextCmdId := NextId(nextCmdId);
        rid := nextCmdId;
      }
    }

    ghost method Account(live: bool)
      modifies this`log, this`accepted
      ensures View() == old(View()).(log := old(log) + [Accepted(old(accepted), live)], accepted := old(accepted) + 1)
      ensures Commands() == old(Commands())
    {
      log, accepted := log + [Accepted(accepted, live)], accepted + 1;
    }

    static lemma SendInserts(s: State<U>, id: nat, pdu: seq<byte>, live: bool, data: U, c: Cmd<U>)
      requires pdu != [] && !s.stale
      requires c == Cmd(s.accepted, if id != 0 then id else NextId(s.lastId), pdu, false, live, data)
      ensures var t := InsertCmd(s.(lastId := if id != 0 then s.lastId else c.id), c, id);
              Engine.Send(s, id, pdu, live, data) ==
              (t.(log := t.log + [Accepted(t.accepted, live)], accepted := t.accepted + 1), c.id)
    {
    }

    /** The choice of queue and end in `g_attrib_send`, and the wake-up when the queue was empty. */
    method Insert(c: Command<U>, id: nat)
      modifies this`requests, this`responses, this`writeWatch
      ensures View() == InsertCmd(old(View()), c.Value(), id)
      ensures Commands() == old(Commands()) + {c}
    {
      hide IsResponse, Values;
      var length := Enqueue(c, id);
      if length == 1 {
        WakeUpSender();
      }
    }

    /** What that does to the state. */
    static ghost function InsertCmd(s: State<U>, c: Cmd<U>, id: nat): State<U> {
      if IsResponse(Engine.Opcode(c)) then
        s.(responses := s.responses + [c], writeWatch := s.writeWatch || s.responses == [])
      else
        s.(requests := if id != 0 then [c] + s.requests else s.requests + [c],
           writeWatch := s.writeWatch || s.requests == [])
    }

    method Enqueue(c: Command<U>, id: nat) returns (length: nat)
      modifies this`requests, this`responses
      ensures var v := old(View());
              View() ==
              if IsResponse(c.Opcode()) then v.(responses := v.responses + [c.Value()])
              else v.(requests := if id != 0 then [c.Value()] + v.requests else v.requests + [c.Value()])
      ensures Commands() == old(Commands()) + {c}
      ensures length == if IsResponse(c.Opcode()) then |responses| else |requests|
    {
      hide IsResponse;
      ValuesAdd(requests, c);
      ValuesAdd(responses, c);
      if IsResponse(c.Opcode()) {
        responses := responses + [c];
        length := |responses|;
      } else if id != 0 {
        requests := [c] + requests;
        length := |requests|;
      } else {
        requests := requests + [c];
        length := |requests|;
      }
    }

    /** `can_write_data` called on the armed watch, and `destroy_sender` when it gives the watch up. */
    method CanWriteData(hup: bool, ok: bool)
      requires Valid() && Enabled(View(), DoWrite(hup, ok))
      modifies this, Commands()
      ensures Valid() && View() == Write(old(View()), hup, ok)
      ensures Commands() <= old(Commands())
    {
      ghost var next := Write(View(), hup, ok);
      WriteInv(View(), hup, ok);
      WriteEvent(hup, ok);
      assert View() == next;
    }

    method WriteEvent(hup: bool, ok: bool)
      requires OneSent(View()) && OnePlace(View())
      modifies this, Commands()
      ensures View() == Write(old(View()), hup, ok)
      ensures Commands() <= old(Commands())
    {
      var keep := WriteHead(hup, ok);
      ghost var v := View();
      if !keep {
        writeWatch := false;
        assert View() == v.(writeWatch := false);
      }
    }

    /** The body of `can_write_data`; FALSE gives the watch up. */
    method WriteHead(hup: bool, ok: bool) returns (keep: bool)
      requires OneSent(View()) && OnePlace(View())
      modifies this, Commands()
      ensures (if keep then View() else View().(writeWatch := false)) == Write(old(View()), hup, ok)
      ensures Commands() <= old(Commands())
    {
      if stale {
        return false;
      }
      if hup {
        ioFailed := true;
        return false;
      }
      if responses == [] && requests == [] {
        return false;
      }
      var cmd := if responses != [] then responses[0] else requests[0];
      if cmd.sent {
        return false;
      }
      if !ok {
        ioFailed := true;
        return false;
      }
      keep := WriteOut(cmd);
    }

    /** The command is on the wire. */
    method WriteOut(cmd: Command<U>) returns (keep: bool)
      requires OneSent(View()) && OnePlace(View()) && !stale && !cmd.sent
      requires if responses != [] then cmd == responses[0] else requests != [] && cmd == requests[0]
      modifies this, Commands()
      ensures (if keep then View() else View().(writeWatch := false)) == Write(old(View()), false, true)
      ensures Commands() <= old(Commands())
    {
      hide Expected, IsResponse;
      if responses != [] {
        assert IsResponse(Engine.Opcode(View().responses[0]));
      }
      RequestsAreNotResponses(cmd.Opcode());
      if Expected(cmd.Opcode()) == 0 {
        DropWritten(cmd);
        return true;
      }
      MarkSent(cmd);
      log := log + [Wrote(cmd.uid, cmd.Opcode())];
      keep := false;
    }

    /** Nothing is expected in return. */
    method DropWritten(cmd: Command<U>)
      requires if responses != [] then cmd == responses[0] else requests != [] && cmd == requests[0]
      modifies this`requests, this`responses, this`log
      ensures var s, log := old(View()), old(log) + [Wrote(cmd.uid, cmd.Opcode())] + [Destroyed(cmd.uid)];
              View() == if s.responses != [] then s.(responses := s.responses[1..], log := log)
                        else s.(requests := s.requests[1..], log := log)
      ensures Commands() <= old(Commands())
    {
      log := log + [Wrote(cmd.uid, cmd.Opcode())] + [Destroyed(cmd.uid)];
      if responses != [] {
        ValuesTail(responses, 1);
        responses := responses[1..];
      } else {
        ValuesTail(requests, 1);
        requests := requests[1..];
      }
    }

    /** `sent = true` on the head request and the timer that comes with it. */
    method MarkSent(cmd: Command<U>)
      requires requests != [] && cmd == requests[0] && responses == [] && OnePlace(View())
      modifies this`timeoutWatch, cmd`sent
      ensures View() == old(View()).(requests := old(View().requests)[0 := old(View().requests[0]).(sent := true)],
                                     timeoutWatch := true)
    {
      DistinctObjects();
      cmd.sent := true;
      timeoutWatch := true;
    }

    /** Commands with different uids are different objects. */
    lemma DistinctObjects()
      requires OnePlace(View())
      ensures forall i, j :: 0 <= i < j < |requests| ==> requests[i] != requests[j]
      ensures forall i, j :: 0 <= i < j < |responses| ==> responses[i] != responses[j]
      ensures forall i :: 0 <= i < |requests| && current.Some? ==> requests[i] != current.value
      ensures forall i, j :: 0 <= i < |requests| && 0 <= j < |responses| ==> requests[i] != responses[j]
    {
      var v := View();
      assert forall i :: 0 <= i < |requests| ==> v.requests[i].uid == requests[i].uid;
      assert forall i :: 0 <= i < |responses| ==> v.responses[i].uid == responses[i].uid;
      assert forall i :: 0 <= i < |requests| ==> requests[i].uid in Uids(v.requests);
      assert forall i :: 0 <= i < |responses| ==> responses[i].uid in Uids(v.responses);
      if current.Some? {
        assert CurrentQueue(v)[0].uid == current.value.uid;
      }
    }

    /** `received_data` up to the call of the result function.  `status` is what that function gets if
        one is to run, that is if `current` is set and still has a function. */
    method ReceivedData(input: Input) returns (status: byte)
      requires Valid() && Enabled(View(), DoReceive(input))
      modifies this
      ensures Valid() && View() == Receive(old(View()), input)
      ensures Commands() <= old(Commands())
      ensures current.Some? ==> input.Pdu? && status == Status(current.value.Value(), input.bytes)
    {
      ReceiveInv(View(), input);
      status := PopCompleted(input);
    }

    method PopCompleted(input: Input) returns (status: byte)
      requires current.None? && (input.Pdu? ==> input.bytes != [])
      modifies this
      ensures View() == Receive(old(View()), input)
      ensures Commands() <= old(Commands())
      ensures current.Some? ==> input.Pdu? && status == Status(current.value.Value(), input.bytes)
    {
      status := 0;
      if stale || input.Hangup? {
        return;
      }
      if input.Pdu? {
        var buf := input.bytes;
        if !IsResponse(buf[0]) {
          return;
        }
        if timeoutWatch {
          timeoutWatch := false;
        }
        if requests == [] {
          return;
        }
        status := PopHead(buf);
      }
      if requests != [] || responses != [] {
        WakeUpSender();
      }
    }

    /** The status that goes with a response. */
    method StatusFor(cmd: Command<U>, buf: seq<byte>) returns (status: byte)
      requires buf != []
      ensures status == Status(cmd.Value(), buf)
    {
      status := if buf[0] == OP_ERROR then (if |buf| > 4 then buf[4] else 0)
                else if Expected(cmd.Opcode()) != buf[0] then ECODE_IO
                else 0;
    }

    /** The head of `requests` becomes the command in completion. */
    method PopHead(buf: seq<byte>) returns (status: byte)
      requires buf != [] && requests != [] && current.None?
      modifies this`requests, this`current, this`log
      ensures var s := old(View());
              View() == s.(requests := s.requests[1..], current := Some(s.requests[0]),
                           log := s.log + [Popped(s.requests[0].uid)] +
                                  if s.requests[0].live then [Ran(s.requests[0].uid, status)] else [])
      ensures Commands() == old(Commands()) && current.Some? && status == Status(current.value.Value(), buf)
    {
      hide Status;
      var cmd := requests[0];
      status := StatusFor(cmd, buf);
      TakeHead();
      log := log + [Popped(cmd.uid)] + if cmd.live then [Ran(cmd.uid, status)] else [];
    }

    /** `g_queue_pop_head`. */
    method TakeHead()
      requires requests != [] && current.None?
      modifies this`requests, this`current
      ensures var s := old(View());
              View() == s.(requests := s.requests[1..], current := Some(s.requests[0]))
      ensures Commands() == old(Commands()) && current == Some(old(requests[0]))
    {
      ValuesTail(requests, 1);
      assert requests == [requests[0]] + requests[1..];
      current, requests := Some(requests[0]), requests[1..];
    }

    /** `command_destroy` after the result function has returned. */
    method EndReceivedData()
      requires Valid() && Enabled(View(), DoEndReceive)
      modifies this
      ensures Valid() && View() == EndReceive(old(View()))
      ensures Commands() <= old(Commands())
    {
      EndReceiveInv(View());
      log := log + [Destroyed(current.value.uid)];
      current := None;
    }

    /** `disconnect_timeout`; the result functions it calls do not send. */
    method DisconnectTimeout()
      requires Valid() && Enabled(View(), DoTimeout)
      modifies this
      ensures Valid() && View() == Timeout(old(View()))
      ensures Commands() <= old(Commands())
    {
      hide Inv, Aborts;
      TimeoutInv(View());
      AbortRequests();
      stale := true;
    }

    method AbortRequests()
      modifies this`requests, this`log
      ensures View() == old(View()).(requests := [], log := old(log) + Aborts(old(View().requests), ECODE_TIMEOUT))
      ensures Commands() <= old(Commands())
    {
      hide Aborts;
      var status := ECODE_TIMEOUT;
      ghost var before := View();
      while requests != []
        invariant log + Aborts(Values(requests), status) == before.log + Aborts(before.requests, ECODE_TIMEOUT)
        invariant View() == before.(requests := Values(requests), log := log)
        invariant Commands() <= old(Commands())
        decreases |requests|
      {
        AbortsFirst(log, Values(requests), status);
        AbortHead(status);
        status := ECODE_ABORTED;
      }
      AbortsNone(log, Values(requests), status);
    }

    /** The head of `requests` is popped, run and destroyed. */
    method AbortHead(status: byte)
      requires requests != []
      modifies this`requests, this`log
      ensures var s := old(View());
              View() == s.(requests := s.requests[1..], log := s.log + AbortOne(s.requests[0], status))
      ensures Commands() <= old(Commands()) && |requests| == |old(requests)| - 1
    {
      var c := requests[0];
      ValuesTail(requests, 1);
      log := log + ([Popped(c.uid)] + (if c.live then [Ran(c.uid, status)] else []) + [Destroyed(c.uid)]);
      requests := requests[1..];
    }

    static ghost function AbortOne(c: Cmd<U>, status: byte): seq<Event> {
      [Popped(c.uid)] + (if c.live then [Ran(c.uid, status)] else []) + [Destroyed(c.uid)]
    }

    static lemma AbortsFirst(log: seq<Event>, q: seq<Cmd<U>>, status: byte)
      requires q != []
      ensures log + Aborts(q, status) == (log + AbortOne(q[0], status)) + Aborts(q[1..], ECODE_ABORTED)
    {
      assert Aborts(q, status) == AbortOne(q[0], status) + Aborts(q[1..], ECODE_ABORTED);
      Assoc(log, AbortOne(q[0], status), Aborts(q[1..], ECODE_ABORTED));
    }

    static lemma AbortsNone(log: seq<Event>, q: seq<Cmd<U>>, status: byte)
      requires q == []
      ensures log + Aborts(q, status) == log
    {
    }

    /** `g_queue_find_custom` with `command_cmp_by_id`. */
    method FindById(q: seq<Command<U>>, id: nat) returns (i: nat)
      ensures i == IndexOf(Values(q), id)
    {
      i := 0;
      while i < |q| && q[i].id != id
        invariant i <= |q|
        invariant forall j :: 0 <= j < i ==> Values(q)[j].id != id
      {
        i := i + 1;
      }
      assert i < |q| ==> Values(q)[i].id == id;
    }

    /** `g_attrib_cancel`. */
    method CancelCommand(id: nat) returns (found: bool)
      requires Valid()
      modifies this, Commands()
      ensures Valid() && View() == Cancel(old(View()), id).0
      ensures found == Cancel(old(View()), id).1
      ensures Commands() <= old(Commands())
    {
      ghost var next := Cancel(View(), id).0;
      CancelInv(View(), id);
      found := CancelFound(id);
      assert View() == next;
    }

    method CancelFound(id: nat) returns (found: bool)
      requires OneSent(View()) && OnePlace(View())
      modifies this, Commands()
      ensures View() == Cancel(old(View()), id).0 && found == Cancel(old(View()), id).1
      ensures Commands() <= old(Commands())
    {
      hide IndexOf, Without;
      var i := FindById(requests, id);
      var j := FindById(responses, id);
      if i < |requests| {
        CancelRequest(requests[i], i);
      } else if j < |responses| {
        CancelResponse(j);
      } else {
        return false;
      }
      found := true;
    }

    method CancelRequest(cmd: Command<U>, i: nat)
      requires OnePlace(View()) && i < |requests| && cmd == requests[i]
      modifies this`requests, this`log, cmd`live
      ensures var s := old(View());
              View() == if i == 0 && s.requests[0].sent
                        then s.(requests := s.requests[0 := s.requests[0].(live := false)],
                                log := s.log + [Silenced(s.requests[0].uid)])
                        else s.(requests := Without(s.requests, i), log := s.log + [Destroyed(s.requests[i].uid)])
      ensures Commands() <= old(Commands())
    {
      DistinctObjects();
      if i == 0 && cmd.sent {
        cmd.live := false;
        log := log + [Silenced(cmd.uid)];
      } else {
        ValuesWithout(requests, i);
        requests := requests[..i] + requests[i + 1..];
        log := log + [Destroyed(cmd.uid)];
      }
    }

    method CancelResponse(j: nat)
      requires OneSent(View()) && j < |responses|
      modifies this`responses, this`log
      ensures var s := old(View());
              View() == s.(responses := Without(s.responses, j), log := s.log + [Destroyed(s.responses[j].uid)])
      ensures Commands() <= old(Commands())
    {
      assert !View().responses[j].sent;
      ValuesWithout(responses, j);
      log := log + [Destroyed(responses[j].uid)];
      responses := responses[..j] + responses[j + 1..];
    }

    /** `cancel_all_per_queue`. */
    method CancelAllPerQueue(q: seq<Command<U>>) returns (kept: seq<Command<U>>)
      requires forall i :: 1 <= i < |q| ==> !q[i].sent && q[i] != q[0]
      modifies this`log, q
      ensures Values(kept) == CancelQueue(old(Values(q))).0 && log == old(log) + CancelQueue(old(Values(q))).1
      ensures kept == if q != [] && old(q[0].sent) then [q[0]] else []
      ensures forall c <- q :: c.sent == old(c.sent) && (!old(c.sent) ==> c.live == old(c.live))
    {
      hide Destroys, CancelQueue;
      ghost var vs := Values(q);
      CancelQueueIs(vs);
      var first := true;
      kept := [];
      var k := 0;
      while k < |q|
        invariant k <= |q|
        invariant forall c <- q :: c.sent == old(c.sent)
        invariant forall i :: 1 <= i < |q| ==> q[i].live == old(q[i].live)
        invariant if k == 0 then log == old(log) else log + Destroys(vs[k..]) == old(log) + CancelQueue(vs).1
        invariant kept == if k > 0 && vs[0].sent then [q[0]] else []
        invariant q != [] ==> q[0].live == if k > 0 && vs[0].sent then false else old(q[0].live)
        invariant first ==> k == 0 || vs[0].sent
        invariant k == 0 ==> first
        decreases |q| - k
      {
        var c := q[k];
        DestroysFirst(log, vs, k);
        if first && c.sent {
          c.live := false;
          log := log + [Silenced(c.uid)];
          kept := [c];
        } else {
          first := false;
          log := log + [Destroyed(c.uid)];
        }
        k := k + 1;
      }
      assert vs[|q|..] == [] && log + [] == log;
    }

    static lemma CancelQueueIs(q: seq<Cmd<U>>)
      ensures q == [] ==> CancelQueue(q) == ([], [])
      ensures q != [] ==>
                CancelQueue(q) == (if q[0].sent then [q[0].(live := false)] else [],
                                   [if q[0].sent then Silenced(q[0].uid) else Destroyed(q[0].uid)] + Destroys(q[1..]))
      ensures Destroys<U>([]) == []
    {
    }

    static lemma DestroysFirst(log: seq<Event>, q: seq<Cmd<U>>, k: nat)
      requires k < |q|
      ensures log + Destroys(q[k..]) == (log + [Destroyed(q[k].uid)]) + Destroys(q[k + 1..])
      ensures forall e: Event :: log + ([e] + Destroys(q[k + 1..])) == (log + [e]) + Destroys(q[k + 1..])
    {
      assert q[k..] == [q[k]] + q[k + 1..];
      Assoc(log, [Destroyed(q[k].uid)], Destroys(q[k + 1..]));
    }

    /** `g_attrib_cancel_all`. */
    method CancelEverything()
      requires Valid()
      modifies this, Commands()
      ensures Valid() && View() == CancelAll(old(View()))
      ensures Commands() <= old(Commands())
    {
      CancelAllInv(View());
      CancelQueues();
    }

    method CancelQueues()
      requires OneSent(View()) && OnePlace(View())
      modifies this, Commands()
      ensures View() == CancelAll(old(View()))
      ensures Commands() <= old(Commands())
    {
      hide CancelQueue;
      DistinctObjects();
      ghost var v := View();
      assert forall i :: 0 <= i < |responses| ==> responses[i].sent == v.responses[i].sent;
      CancelRequests();
      assert forall i :: 0 <= i < |responses| ==> responses[i].sent == v.responses[i].sent;
      CancelResponses();
    }

    method CancelResponses()
      requires forall i :: 1 <= i < |responses| ==> responses[i] != responses[0]
      requires forall i :: 0 <= i < |responses| ==> !responses[i].sent
      modifies this`responses, this`log, responses
      ensures var s := old(View());
              View() == s.(responses := CancelQueue(s.responses).0, log := s.log + CancelQueue(s.responses).1)
      ensures Commands() <= old(Commands())
    {
      hide CancelQueue;
      ghost var v := View();
      var kept := CancelAllPerQueue(responses);
      assert forall i :: 0 <= i < |responses| ==> responses[i].Value() == v.responses[i];
      assert Values(responses) == v.responses;
      responses := kept;
    }

    method CancelRequests()
      requires OneSent(View()) && OnePlace(View())
      modifies this`requests, this`log, requests
      ensures var s := old(View());
              View() == s.(requests := CancelQueue(s.requests).0, log := s.log + CancelQueue(s.requests).1)
      ensures responses == old(responses) && current == old(current) && Commands() <= old(Commands())
    {
      DistinctObjects();
      ghost var v := View();
      assert forall i :: 0 <= i < |requests| ==> requests[i].sent == v.requests[i].sent;
      assert HeadSent(v) ==> current.None?;
      var kept := CancelAllPerQueue(requests);
      assert CurrentValue() == v.current && Values(responses) == v.responses;
      requests := kept;
    }

    /** `attrib_destroy`: both queues are emptied head first. */
    method AttribDestroy()
      requires Valid() && current.None?
      modifies this
      ensures View() == Destroy(old(View()))
    {
      hide Inv, Destroys;
      DestroyQueue(requests);
      requests := [];
      DestroyQueue(responses);
      responses := [];
      timeoutWatch := false;
      writeWatch := false;
    }

    method DestroyQueue(q: seq<Command<U>>)
      modifies this`log
      ensures log == old(log) + Destroys(Values(q))
    {
      ghost var vs := Values(q);
      assert vs[0..] == vs;
      for k := 0 to |q|
        invariant log + Destroys(vs[k..]) == old(log) + Destroys(vs)
      {
        assert vs[k..] == [vs[k]] + vs[k + 1..];
        Assoc(log, [Destroyed(q[k].uid)], Destroys(vs[k + 1..]));
        log := log + [Destroyed(q[k].uid)];
      }
      assert vs[|q|..] == [] && log + [] == log;
    }
  }
}
