/** The read watch of the engine: when `received_data` gives it up, and what is left of the engine then. */
module EngineReading {
  import opened Bytes
  import opened AttDefs
  import opened Engine
  import opened EngineSafety

  /** The engine with its read watch and the number of registered events. */
  datatype Reader<+U> = Reader(eng: State<U>, readWatch: bool, events: nat)

  datatype Act<+U> = Engine(op: Op<U>) | Register | Unregister

  /** What `received_data` returns: whether the main loop keeps the watch. */
  predicate KeepsWatch<U>(s: State<U>, input: Input, events: nat)
    requires input.Pdu? ==> input.bytes != []
  {
    !s.stale && !input.Hangup? && (input.Pdu? && IsResponse(input.bytes[0]) && s.requests == [] ==> events > 0)
  }

  /** Read events come from the watch. */
  predicate CanAct<U>(r: Reader<U>, act: Act<U>) {
    match act
    case Engine(op) => Enabled(r.eng, op) && (op.DoReceive? ==> r.readWatch)
    case Register => true
    case Unregister => r.events > 0
  }

  function Acted<U>(r: Reader<U>, act: Act<U>): Reader<U>
    requires CanAct(r, act)
  {
    match act
    case Engine(op) =>
      r.(eng := Step(r.eng, op),
         readWatch := if op.DoReceive? then KeepsWatch(r.eng, op.input, r.events) else r.readWatch)
    case Register => r.(events := r.events + 1)
    case Unregister => r.(events := r.events - 1)
  }

  ghost predicate IsReading<U>(rs: seq<Reader<U>>, acts: seq<Act<U>>) {
    && |rs| == |acts| + 1
    && rs[0] == Reader(Init(), true, 0)
    && forall i :: 0 <= i < |acts| ==> CanAct(rs[i], acts[i]) && rs[i + 1] == Acted(rs[i], acts[i])
  }

  lemma {:induction false} ReadingInv<U>(rs: seq<Reader<U>>, acts: seq<Act<U>>, i: nat)
    requires IsReading(rs, acts) && i < |rs|
    ensures Inv(rs[i].eng)
  {
    hide Inv, Step, Enabled, KeepsWatch;
    if i == 0 {
      InitInv<U>();
    } else {
      ReadingInv(rs, acts, i - 1);
      if acts[i - 1].Engine? {
        StepInv(rs[i - 1].eng, acts[i - 1].op);
      }
    }
  }

  // ---------------------------------------------------------------- when the watch is lost

  /** A read event that the engine does not want any more: it is stale, the channel is broken, or a response (by
      number) has come that no request waits for, and nobody has registered for events. */
  ghost predicate Unwanted<U>(r: Reader<U>, act: Act<U>) {
    && act.Engine? && act.op.DoReceive?
    && match act.op.input
       case Hangup => true
       case ReadError => r.eng.stale
       case Pdu(bytes) =>
         || r.eng.stale
         || (bytes != [] && r.eng.requests == [] && r.events == 0
             && (bytes[0] == 0x01 || (bytes[0] > 0 && IsRequest(bytes[0] - 1))))
  }

  /** The watch is there until the first such event. */
  lemma {:induction false} WatchLostIff<U>(rs: seq<Reader<U>>, acts: seq<Act<U>>, i: nat)
    requires IsReading(rs, acts) && i < |rs|
    ensures !rs[i].readWatch <==> exists k :: 0 <= k < i && Unwanted(rs[k], acts[k])
  {
    hide Step, Enabled, KeepsWatch, Unwanted;
    if i > 0 {
      WatchLostIff(rs, acts, i - 1);
      var act := acts[i - 1];
      assert !rs[i].readWatch <==> !rs[i - 1].readWatch || Unwanted(rs[i - 1], act) by {
        WatchStep(rs[i - 1], act);
      }
    }
  }

  lemma WatchStep<U>(r: Reader<U>, act: Act<U>)
    requires CanAct(r, act)
    ensures !Acted(r, act).readWatch <==> !r.readWatch || Unwanted(r, act)
  {
    hide IsResponse, IsRequest, Step;
    if act.Engine? && act.op.DoReceive? && act.op.input.Pdu? {
      OpcodeTables(act.op.input.bytes[0]);
    }
  }

  // ---------------------------------------------------------------- an engine that does not read

  /** Events without a completion by a response: result functions run with the errors of the timeout only. */
  ghost predicate NoAnswers(log: seq<Event>) {
    forall e <- log :: e.Ran? ==> e.status == ECODE_TIMEOUT || e.status == ECODE_ABORTED
  }

  /** How many requests that wait for a response have been written. */
  function RequestsWritten(log: seq<Event>): nat {
    if log == [] then 0
    else RequestsWritten(log[..|log| - 1]) +
         if log[|log| - 1].Wrote? && Expected(log[|log| - 1].opcode) != 0 then 1 else 0
  }

  lemma {:induction false} RequestsWrittenConcat(a: seq<Event>, b: seq<Event>)
    ensures RequestsWritten(a + b) == RequestsWritten(a) + RequestsWritten(b)
  {
    if b == [] {
      assert a + b == a;
    } else {
      RequestsWrittenConcat(a, b[..|b| - 1]);
      assert (a + b)[..|a + b| - 1] == a + b[..|b| - 1];
    }
  }

  /** What a step that is not a read event adds to the log, and what becomes of an outstanding request: it stays
      the head until the engine goes stale, and nothing is written behind it. */
  ghost predicate Mute<U>(s: State<U>, t: State<U>, added: seq<Event>) {
    && t.log == s.log + added && t.current.None?
    && NoAnswers(added)
    && RequestsWritten(added) <= 1
    && (RequestsWritten(added) == 1 ==> !s.stale && !HeadSent(s) && HeadSent(t))
    && (s.stale ==> t.stale)
    && (HeadSent(s) && !t.stale ==> HeadSent(t) && t.requests[0].uid == s.requests[0].uid)
  }

  lemma {:induction false} AbortsMute<U>(q: seq<Cmd<U>>, status: byte)
    requires status == ECODE_TIMEOUT || status == ECODE_ABORTED
    ensures NoAnswers(Aborts(q, status)) && RequestsWritten(Aborts(q, status)) == 0
    decreases q
  {
    if q != [] {
      AbortsMute(q[1..], ECODE_ABORTED);
      var first := [Popped(q[0].uid)] + (if q[0].live then [Ran(q[0].uid, status)] else []) + [Destroyed(q[0].uid)];
      NothingWritten(first);
      RequestsWrittenConcat(first, Aborts(q[1..], ECODE_ABORTED));
    }
  }

  lemma {:induction false} NothingWritten(log: seq<Event>)
    requires forall e <- log :: !e.Wrote?
    ensures RequestsWritten(log) == 0
  {
    if log != [] {
      NothingWritten(log[..|log| - 1]);
    }
  }

  lemma {:induction false} DestroysMute<U>(q: seq<Cmd<U>>)
    ensures NoAnswers(Destroys(q)) && forall e <- Destroys(q) :: !e.Wrote?
  {
    if q != [] {
      DestroysMute(q[1..]);
    }
  }

  lemma SendMute<U>(s: State<U>, id: nat, pdu: seq<byte>, live: bool, data: U) returns (added: seq<Event>)
    requires Inv(s) && s.current.None? && Enabled(s, DoSend(id, pdu, live, data))
    ensures Mute(s, Send(s, id, pdu, live, data).0, added)
  {
    hide IsResponse, NextId, Inv;
    added := if s.stale then [] else [Accepted(s.accepted, live)];
    NothingWritten(added);
    assert s.log + [] == s.log;
  }

  /** A PDU that expects no response is gone at once. */
  lemma WrittenOff(uid: nat, opcode: byte)
    requires Expected(opcode) == 0
    ensures var added := [Wrote(uid, opcode), Destroyed(uid)]; NoAnswers(added) && RequestsWritten(added) == 0
  {
    RequestsWrittenConcat([Wrote(uid, opcode)], [Destroyed(uid)]);
    NothingWritten([Destroyed(uid)]);
    assert [Wrote(uid, opcode)][..0] == [];
    assert [Wrote(uid, opcode)] + [Destroyed(uid)] == [Wrote(uid, opcode), Destroyed(uid)];
  }

  lemma WrittenOut(uid: nat, opcode: byte)
    requires Expected(opcode) != 0
    ensures var added := [Wrote(uid, opcode)]; NoAnswers(added) && RequestsWritten(added) == 1
  {
    assert [Wrote(uid, opcode)][..0] == [];
  }

  lemma WriteMute<U>(s: State<U>, hup: bool, ok: bool) returns (added: seq<Event>)
    requires Inv(s) && s.current.None?
    ensures Mute(s, Write(s, hup, ok), added)
  {
    hide IsResponse, Expected, Distinct, LivesAgree, WireAgrees, OnePlace, RequestsWritten, NoAnswers, Opcode;
    if s.responses == [] && s.requests == [] {
      added := [];
      NothingWritten([]);
      assert NoAnswers([]) by { DestroysMute<U>([]); }
    } else {
      var c := if s.responses != [] then s.responses[0] else s.requests[0];
      var opcode := Opcode(c);
      RequestsAreNotResponses(opcode);
      if s.stale || hup || c.sent || !ok {
        added := [];
        NothingWritten([]);
        assert NoAnswers([]) by { DestroysMute<U>([]); }
      } else if Expected(opcode) == 0 {
        added := [Wrote(c.uid, opcode), Destroyed(c.uid)];
        assert s.log + [Wrote(c.uid, opcode)] + [Destroyed(c.uid)] == s.log + added;
        WrittenOff(c.uid, opcode);
      } else {
        added := [Wrote(c.uid, opcode)];
        WrittenOut(c.uid, opcode);
      }
    }
  }

  lemma CancelMute<U>(s: State<U>, id: nat) returns (added: seq<Event>)
    requires Inv(s) && s.current.None?
    ensures Mute(s, Cancel(s, id).0, added)
  {
    hide IsResponse, Expected, Distinct, LivesAgree, WireAgrees, OnePlace, IndexOf, Opcode, RequestsWritten;
    var t := Cancel(s, id).0;
    NothingWritten([]);
    if t.log == s.log {
      added := [];
    } else {
      added := [t.log[|s.log|]];
      NothingWritten(added);
    }
  }

  lemma CancelAllMute<U>(s: State<U>) returns (added: seq<Event>)
    requires Inv(s) && s.current.None?
    ensures Mute(s, CancelAll(s), added)
  {
    hide IsResponse, Expected, Distinct, LivesAgree, WireAgrees, OnePlace;
    var first, second := CancelQueue(s.requests).1, CancelQueue(s.responses).1;
    added := first + second;
    Assoc(s.log, first, second);
    QueueMute(s.requests);
    QueueMute(s.responses);
    NothingWritten(added);
  }

  lemma QueueMute<U>(q: seq<Cmd<U>>)
    ensures NoAnswers(CancelQueue(q).1) && forall e <- CancelQueue(q).1 :: !e.Wrote?
  {
    DestroysMute(q);
    if q != [] {
      DestroysMute(q[1..]);
    }
  }

  lemma StepMute<U>(s: State<U>, op: Op<U>) returns (added: seq<Event>)
    requires Inv(s) && s.current.None? && Enabled(s, op) && !op.DoReceive?
    ensures Mute(s, Step(s, op), added)
  {
    hide Inv, Mute;
    match op
    case DoSend(id, pdu, live, data) => added := SendMute(s, id, pdu, live, data);
    case DoWrite(hup, ok) => added := WriteMute(s, hup, ok);
    case DoCancel(id) => added := CancelMute(s, id);
    case DoCancelAll => added := CancelAllMute(s);
    case DoTimeout => added := TimeoutMute(s);
  }

  lemma TimeoutMute<U>(s: State<U>) returns (added: seq<Event>)
    requires s.current.None?
    ensures Mute(s, Timeout(s), added)
  {
    added := Aborts(s.requests, ECODE_TIMEOUT);
    AbortsMute(s.requests, ECODE_TIMEOUT);
  }

  /** What has been added to the log since the watch was lost. */
  ghost predicate Deaf<U>(s: State<U>, t: State<U>, added: seq<Event>) {
    var out := RequestsWritten(added) + if HeadSent(s) then 1 else 0;
    && t.log == s.log + added && t.current.None? && NoAnswers(added)
    && out <= 1 && (out == 1 ==> t.stale || HeadSent(t))
    && (s.stale ==> t.stale && RequestsWritten(added) == 0)
  }

  lemma DeafStep<U>(s: State<U>, t: State<U>, u: State<U>, before: seq<Event>, added: seq<Event>)
    requires Deaf(s, t, before) && Mute(t, u, added)
    ensures Deaf(s, u, before + added)
  {
    RequestsWrittenConcat(before, added);
    Assoc(s.log, before, added);
  }

  lemma LossIdle<U>(r: Reader<U>, act: Act<U>)
    requires CanAct(r, act) && r.readWatch && !Acted(r, act).readWatch
    ensures Acted(r, act).eng.current.None?
  {
  }

  /** The watch is lost between completions, and no completion begins after that. */
  lemma {:induction false} LostIdle<U>(rs: seq<Reader<U>>, acts: seq<Act<U>>, i: nat)
    requires IsReading(rs, acts) && i < |rs| && !rs[i].readWatch
    ensures rs[i].eng.current.None?
  {
    hide Step, Enabled, KeepsWatch, Inv;
    if i > 0 {
      if rs[i - 1].readWatch {
        LossIdle(rs[i - 1], acts[i - 1]);
      } else {
        LostIdle(rs, acts, i - 1);
        if acts[i - 1].Engine? {
          ReadingInv(rs, acts, i - 1);
          var added := StepMute(rs[i - 1].eng, acts[i - 1].op);
        }
      }
    }
  }

  lemma {:induction false} DeafRun<U>(rs: seq<Reader<U>>, acts: seq<Act<U>>, i: nat, j: nat) returns (added: seq<Event>)
    requires IsReading(rs, acts) && i <= j < |rs| && !rs[i].readWatch
    ensures !rs[j].readWatch && Deaf(rs[i].eng, rs[j].eng, added)
    decreases j - i
  {
    hide Step, Enabled, KeepsWatch, Mute, Inv;
    LostIdle(rs, acts, i);
    if i == j {
      added := [];
    } else {
      var before := DeafRun(rs, acts, i, j - 1);
      added := before;
      if acts[j - 1].Engine? {
        ReadingInv(rs, acts, j - 1);
        var more := StepMute(rs[j - 1].eng, acts[j - 1].op);
        DeafStep(rs[i].eng, rs[j - 1].eng, rs[j].eng, before, more);
        added := before + more;
      }
    }
  }

  /** Once the watch is lost no result function is run by a response any more, however the run goes on: all
      that are run get the errors of the timeout.  At most one request is written from then on, and none if one
      was out; whichever is out stays at the head of the queue until the timeout makes the engine stale. */
  lemma NothingAnswered<U>(rs: seq<Reader<U>>, acts: seq<Act<U>>, i: nat, j: nat)
    requires IsReading(rs, acts) && i <= j < |rs| && !rs[i].readWatch
    ensures rs[i].eng.log <= rs[j].eng.log
    ensures var added := rs[j].eng.log[|rs[i].eng.log|..];
            var out := RequestsWritten(added) + if HeadSent(rs[i].eng) then 1 else 0;
            && NoAnswers(added) && out <= 1
            && (out == 1 ==> rs[j].eng.stale || HeadSent(rs[j].eng))
  {
    var added := DeafRun(rs, acts, i, j);
    assert rs[j].eng.log[|rs[i].eng.log|..] == added;
  }

  /** A response that no request waits for is enough, if nobody has registered for events: of all requests sent
      afterwards at most one is written, and none is completed by a response. */
  lemma StrayResponseDeafens<U>(rs: seq<Reader<U>>, acts: seq<Act<U>>, i: nat, j: nat, bytes: seq<byte>)
    requires IsReading(rs, acts) && i < j < |rs| && acts[i] == Engine(DoReceive(Pdu(bytes)))
    requires bytes != [] && IsResponse(bytes[0]) && rs[i].eng.requests == [] && rs[i].events == 0
    ensures rs[i].eng.log <= rs[j].eng.log
    ensures var added := rs[j].eng.log[|rs[i].eng.log|..];
            && NoAnswers(added) && RequestsWritten(added) <= 1
            && (RequestsWritten(added) == 1 ==> rs[j].eng.stale || HeadSent(rs[j].eng))
  {
    assert rs[i + 1].eng.log == rs[i].eng.log;
    NothingAnswered(rs, acts, i + 1, j);
  }
}
