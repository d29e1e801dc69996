/** What the engine promises about whole runs, in terms of the events alone. */
module EngineRuns {
  import opened Bytes
  import opened AttDefs
  import opened Engine
  import opened EngineSafety

  // ---------------------------------------------------------------- one outstanding request

  /** In every state of every run: whatever is marked sent is the head of `requests`, nothing in
      `responses` ever is, and until the channel goes stale the timer is armed exactly while such a head
      exists. */
  lemma OneOutstanding<U>(states: seq<State<U>>, ops: seq<Op<U>>, i: nat)
    requires IsRun(states, ops) && i < |states|
    ensures var s := states[i];
            && (forall j :: 0 <= j < |s.requests| && s.requests[j].sent ==> j == 0)
            && (forall j :: 0 <= j < |s.responses| ==> !s.responses[j].sent)
            && (!s.stale ==> (s.timeoutWatch <==> s.requests != [] && s.requests[0].sent))
  {
    RunInv(states, ops, i);
  }

  /** In every state of every run in which no write has failed: queued work that can be written has a
      write watch. */
  lemma NoLostWakeUp<U>(states: seq<State<U>>, ops: seq<Op<U>>, i: nat)
    requires IsRun(states, ops) && i < |states|
    requires !states[i].stale && !states[i].ioFailed
    requires states[i].responses != [] || (states[i].requests != [] && !states[i].requests[0].sent)
    ensures states[i].writeWatch
  {
    RunInv(states, ops, i);
  }

  lemma {:induction false} ClashStays(log: seq<Event>)
    ensures WireFrom(Clash, log) == Clash
  {
    if log != [] {
      ClashStays(log[1..]);
    }
  }

  lemma {:induction false} BusyUntilPopped(w: Wire, log: seq<Event>)
    requires w.Busy? && WireFrom(w, log) != Clash && Popped(w.uid) !in log
    ensures WireFrom(w, log) == w
    ensures forall j :: 0 <= j < |log| && log[j].Wrote? ==> IsResponse(log[j].opcode)
  {
    if log != [] {
      assert log == [log[0]] + log[1..];
      ClashStays(log[1..]);
      BusyUntilPopped(WireNext(w, log[0]), log[1..]);
    }
  }

  /** What comes before a legal end was legal. */
  lemma LegalPrefix(w: Wire, a: seq<Event>, b: seq<Event>)
    requires WireFrom(w, a + b) != Clash
    ensures WireFrom(w, a) != Clash && WireFrom(WireFrom(w, a), b) != Clash
  {
    WireFromConcat(w, a, b);
    ClashStays(b);
  }

  lemma WireOne(w: Wire, e: Event)
    ensures WireFrom(w, [e]) == WireNext(w, e)
  {
    assert [e][1..] == [];
  }

  /** A request written in a legal log is outstanding from then on. */
  lemma RequestIsOut(log: seq<Event>, a: nat)
    requires WireFrom(Idle, log) != Clash && a < |log|
    requires log[a].Wrote? && Expected(log[a].opcode) != 0
    ensures WireFrom(Busy(log[a].uid), log[a + 1..]) != Clash
  {
    var w := WireFrom(Idle, log[..a]);
    assert log == log[..a] + log[a..];
    LegalPrefix(Idle, log[..a], log[a..]);
    assert log[a..] == [log[a]] + log[a + 1..];
    LegalPrefix(w, [log[a]], log[a + 1..]);
    WireOne(w, log[a]);
    RequestsAreNotResponses(log[a].opcode);
  }

  /** The protocol on the wire is sequential: from the PDU of a request until that request is popped,
      only response PDUs are written. */
  lemma SequentialOnWire<U>(states: seq<State<U>>, ops: seq<Op<U>>, i: nat, a: nat, b: nat)
    requires IsRun(states, ops) && i < |states|
    requires a < b < |states[i].log|
    requires states[i].log[a].Wrote? && Expected(states[i].log[a].opcode) != 0
    requires Popped(states[i].log[a].uid) !in states[i].log[a..b]
    ensures states[i].log[b].Wrote? ==> IsResponse(states[i].log[b].opcode)
  {
    RunInv(states, ops, i);
    WrittenWhileOut(states[i].log, a, b);
  }

  lemma WrittenWhileOut(log: seq<Event>, a: nat, b: nat)
    requires WireFrom(Idle, log) != Clash && a < b < |log|
    requires log[a].Wrote? && Expected(log[a].opcode) != 0 && Popped(log[a].uid) !in log[a..b]
    ensures log[b].Wrote? ==> IsResponse(log[b].opcode)
  {
    var w := Busy(log[a].uid);
    RequestIsOut(log, a);
    assert log[a + 1..] == log[a + 1..b] + log[b..];
    LegalPrefix(w, log[a + 1..b], log[b..]);
    assert forall x <- log[a + 1..b] :: x in log[a..b];
    BusyUntilPopped(w, log[a + 1..b]);
    assert log[b..] == [log[b]] + log[b + 1..];
    LegalPrefix(w, [log[b]], log[b + 1..]);
    WireOne(w, log[b]);
  }

  // ---------------------------------------------------------------- command conservation

  lemma {:induction false} BrokenStays(log: seq<Event>, uid: nat)
    ensures LifeFrom(Broken, log, uid) == Broken
    decreases |log|
  {
    if log != [] {
      BrokenStays(log[1..], uid);
    }
  }

  /** The phase before and after the event at `k`. */
  lemma PhaseAt(log: seq<Event>, uid: nat, k: nat)
    requires k < |log| && Life(log, uid) != Broken
    ensures Life(log[..k], uid) != Broken
    ensures Next(Life(log[..k], uid), log[k], uid) != Broken
    ensures LifeFrom(Next(Life(log[..k], uid), log[k], uid), log[k + 1..], uid) == Life(log, uid)
  {
    var p := Life(log[..k], uid);
    assert log == log[..k] + log[k..];
    LifeFromConcat(Unborn, log[..k], log[k..], uid);
    assert log[k..] == [log[k]] + log[k + 1..];
    LifeFromConcat(p, [log[k]], log[k + 1..], uid);
    BrokenStays(log[k + 1..], uid);
    BrokenStays(log[k..], uid);
  }

  /** A phase from which the result function can still be run. */
  predicate CanRun(p: Phase) {
    p == Unborn || (p.Queued? && p.live) || p == Completing(true)
  }

  lemma {:induction false} NoRunFrom(p: Phase, log: seq<Event>, uid: nat)
    requires !CanRun(p) && LifeFrom(p, log, uid) != Broken
    ensures forall j :: 0 <= j < |log| && log[j].Ran? ==> log[j].uid != uid
    ensures p == Dead ==> forall j :: 0 <= j < |log| ==> log[j].uid != uid
    decreases |log|
  {
    if log != [] {
      BrokenStays(log[1..], uid);
      NoRunFrom(Next(p, log[0], uid), log[1..], uid);
      assert forall j :: 1 <= j < |log| ==> log[j] == log[1..][j - 1];
    }
  }

  lemma {:induction false} PoppedBefore(log: seq<Event>, uid: nat)
    requires Life(log, uid).Completing?
    ensures Popped(uid) in log
    decreases |log|
  {
    var k := |log| - 1;
    assert log != [];
    PhaseAt(log, uid, k);
    assert log[k + 1..] == [];
    if Life(log[..k], uid).Completing? {
      PoppedBefore(log[..k], uid);
    } else {
      assert log[k] == Popped(uid);
    }
  }

  /** In every run, for every command: its result function runs at most once, only after it was popped,
      and never after it was destroyed or after a cancellation took its function away; nothing at all
      happens to it after its destruction. */
  lemma CommandOrder<U>(states: seq<State<U>>, ops: seq<Op<U>>, i: nat, a: nat, b: nat)
    requires IsRun(states, ops) && i < |states| && a < b < |states[i].log|
    requires states[i].log[a].uid == states[i].log[b].uid
    ensures var x, y := states[i].log[a], states[i].log[b];
            && !x.Destroyed?
            && (y.Ran? ==> !x.Ran? && !x.Silenced? && Popped(y.uid) in states[i].log[..b])
  {
    RunInv(states, ops, i);
    var log, uid := states[i].log, states[i].log[a].uid;
    LifeNeverBroken(states[i], uid);
    PhaseAt(log, uid, a);
    PhaseAt(log, uid, b);
    assert log[b] == log[a + 1..][b - a - 1];
    if !CanRun(Next(Life(log[..a], uid), log[a], uid)) {
      NoRunFrom(Next(Life(log[..a], uid), log[a], uid), log[a + 1..], uid);
    }
    if log[b].Ran? {
      PoppedBefore(log[..b], uid);
    }
  }

  lemma LifeNeverBroken<U>(s: State<U>, uid: nat)
    requires Inv(s)
    ensures Life(s.log, uid) != Broken
  {
    if uid in HeldUids(s) {
      assert uid in Uids(s.requests) || uid in Uids(s.responses) || uid in Uids(CurrentQueue(s));
    }
  }

  lemma WriteLogs<U>(s: State<U>, hup: bool, ok: bool)
    ensures s.log <= Write(s, hup, ok).log
  {
    hide Expected, Opcode;
  }

  lemma ReceiveLogs<U>(s: State<U>, input: Input)
    requires input.Pdu? ==> input.bytes != []
    ensures s.log <= Receive(s, input).log
  {
    hide IsResponse, Status;
  }

  lemma CancelLogs<U>(s: State<U>, id: nat)
    ensures var c := Target(s, id);
            Cancel(s, id).0.log == s.log
            + if c == None then [] else [if Sheltered(s, id) then Silenced(c.value.uid) else Destroyed(c.value.uid)]
  {
    hide IndexOf, Without;
  }

  /** The command a cancellation finds is the sent head of its queue. */
  predicate Sheltered<U>(s: State<U>, id: nat)
    requires Target(s, id).Some?
  {
    Target(s, id).value.sent && if IndexOf(s.requests, id) < |s.requests| then IndexOf(s.requests, id) == 0
                                else IndexOf(s.responses, id) == 0
  }

  lemma StepLogs<U>(s: State<U>, op: Op<U>) returns (t: State<U>)
    requires Enabled(s, op)
    ensures t == Step(s, op) && s.log <= t.log
  {
    hide Write, Receive, Cancel, IsResponse, Aborts, CancelQueue;
    t := Step(s, op);
    match op
    case DoWrite(hup, ok) => WriteLogs(s, hup, ok);
    case DoReceive(input) => ReceiveLogs(s, input);
    case DoCancel(id) => CancelLogs(s, id);
    case _ =>
  }

  lemma Prefixes<T>(a: seq<T>, b: seq<T>, c: seq<T>)
    requires a <= b <= c
    ensures a <= c
  {
    assert b == c[..|b|] && a == b[..|a|] == c[..|a|];
  }

  lemma {:induction false} LogGrows<U>(states: seq<State<U>>, ops: seq<Op<U>>, i: nat, j: nat)
    requires IsRun(states, ops) && i <= j < |states|
    ensures states[i].log <= states[j].log
    decreases j - i
  {
    hide Step, Enabled;
    if i < j {
      LogGrows(states, ops, i, j - 1);
      var t := StepLogs(states[j - 1], ops[j - 1]);
      Prefixes(states[i].log, states[j - 1].log, t.log);
    }
  }

  /** What a cancellation finds: the first queued request with the id, or else the first such response. */
  function Target<U>(s: State<U>, id: nat): Option<Cmd<U>> {
    var i, j := IndexOf(s.requests, id), IndexOf(s.responses, id);
    if i < |s.requests| then Some(s.requests[i])
    else if j < |s.responses| then Some(s.responses[j])
    else None
  }

  lemma CancelFinds<U>(s: State<U>, id: nat)
    ensures Cancel(s, id).1 <==> exists c :: (c in s.requests || c in s.responses) && c.id == id
    ensures Cancel(s, id).1 <==> Target(s, id).Some? && Target(s, id).value.id == id
  {
    var i, j := IndexOf(s.requests, id), IndexOf(s.responses, id);
    if i < |s.requests| {
      assert s.requests[i] in s.requests;
    } else if j < |s.responses| {
      assert s.responses[j] in s.responses;
    }
  }

  lemma CancelledPhase<U>(s: State<U>, id: nat)
    requires Inv(s) && Target(s, id).Some?
    ensures !CanRun(Life(Cancel(s, id).0.log, Target(s, id).value.uid))
    ensures var c := Target(s, id).value;
            Cancel(s, id).0.log == s.log + [Silenced(c.uid)] || Cancel(s, id).0.log == s.log + [Destroyed(c.uid)]
  {
    hide Life, Without, Inv;
    var c := TargetQueued(s, id);
    CancelLogs(s, id);
    LifeSnoc(s.log, Silenced(c.uid));
    LifeSnoc(s.log, Destroyed(c.uid));
  }

  lemma TargetQueued<U>(s: State<U>, id: nat) returns (c: Cmd<U>)
    requires Inv(s) && Target(s, id).Some?
    ensures c == Target(s, id).value && Life(s.log, c.uid) == Queued(c.sent, c.live)
  {
    c := Target(s, id).value;
  }

  /** A cancellation succeeds exactly when a queued command has the id, and then, in whatever way the run
      goes on, the function of the first such command is not run any more. */
  lemma CancelSilences<U>(states: seq<State<U>>, ops: seq<Op<U>>, i: nat, j: nat, id: nat, k: nat)
    requires IsRun(states, ops) && i < j < |states| && ops[i] == DoCancel(id)
    ensures Cancel(states[i], id).1 <==> Target(states[i], id).Some?
    ensures Target(states[i], id).Some? && |states[i].log| <= k < |states[j].log| && states[j].log[k].Ran? ==>
              states[j].log[k].uid != Target(states[i], id).value.uid
  {
    CancelFinds(states[i], id);
    if Target(states[i], id).Some? && |states[i].log| <= k < |states[j].log| && states[j].log[k].Ran? {
      var uid := Target(states[i], id).value.uid;
      RunCancels(states, ops, i, id);
      RunNotBroken(states, ops, j, uid);
      LogGrows(states, ops, i + 1, j);
      NoRunAfter(states[i + 1].log, states[j].log, uid, |states[i].log|, k);
    }
  }

  lemma RunCancels<U>(states: seq<State<U>>, ops: seq<Op<U>>, i: nat, id: nat)
    requires IsRun(states, ops) && i < |ops| && ops[i] == DoCancel(id) && Target(states[i], id).Some?
    ensures !CanRun(Life(states[i + 1].log, Target(states[i], id).value.uid))
    ensures |states[i + 1].log| == |states[i].log| + 1 && !states[i + 1].log[|states[i].log|].Ran?
  {
    RunInv(states, ops, i);
    CancelledPhase(states[i], id);
  }

  lemma RunNotBroken<U>(states: seq<State<U>>, ops: seq<Op<U>>, j: nat, uid: nat)
    requires IsRun(states, ops) && j < |states|
    ensures Life(states[j].log, uid) != Broken
  {
    RunInv(states, ops, j);
    LifeNeverBroken(states[j], uid);
  }

  lemma NoRunAfter(after: seq<Event>, log: seq<Event>, uid: nat, n: nat, k: nat)
    requires after <= log && |after| == n + 1 && !after[n].Ran? && n <= k < |log| && log[k].Ran?
    requires !CanRun(Life(after, uid)) && Life(log, uid) != Broken
    ensures log[k].uid != uid
  {
    assert log == after + log[|after|..];
    LifeFromConcat(Unborn, after, log[|after|..], uid);
    NoRunFrom(Life(after, uid), log[|after|..], uid);
    assert log[n] == after[n];
    assert log[k] == log[|after|..][k - |after|];
  }

  function CountDestroyed(log: seq<Event>, uid: nat): nat {
    if log == [] then 0 else (if log[0] == Destroyed(uid) then 1 else 0) + CountDestroyed(log[1..], uid)
  }

  lemma {:induction false} DestroyedCount(p: Phase, log: seq<Event>, uid: nat)
    requires LifeFrom(p, log, uid) != Broken
    ensures CountDestroyed(log, uid) == if p != Dead && LifeFrom(p, log, uid) == Dead then 1 else 0
    ensures p == Dead ==> LifeFrom(p, log, uid) == Dead
    decreases |log|
  {
    if log != [] {
      BrokenStays(log[1..], uid);
      DestroyedCount(Next(p, log[0], uid), log[1..], uid);
    }
  }

  /** Every accepted command is in exactly one place - a queue, the completion step, or destroyed once. */
  lemma CommandsConserved<U>(states: seq<State<U>>, ops: seq<Op<U>>, i: nat, uid: nat)
    requires IsRun(states, ops) && i < |states| && uid < states[i].accepted
    ensures var s := states[i];
            CountDestroyed(s.log, uid) == if uid in HeldUids(s) then 0 else 1
    ensures Uids(states[i].requests) !! Uids(states[i].responses) !! Uids(CurrentQueue(states[i]))
  {
    RunInv(states, ops, i);
    var s := states[i];
    LifeNeverBroken(s, uid);
    DestroyedCount(Unborn, s.log, uid);
    if uid in HeldUids(s) {
      assert uid in Uids(s.requests) || uid in Uids(s.responses) || uid in Uids(CurrentQueue(s));
    }
  }

  /** After `attrib_destroy` every command ever accepted has been destroyed exactly once. */
  lemma DestroyFinishes<U>(s: State<U>, uid: nat)
    requires Inv(s) && s.current.None? && uid < s.accepted
    ensures CountDestroyed(Destroy(s).log, uid) == 1
    ensures Destroy(s).requests == [] && Destroy(s).responses == []
  {
    ConservedDropRequests(s, 0);
    assert s.requests[0..] == s.requests && s.requests[..0] == [];
    var t := s.(requests := [], log := s.log + Destroys(s.requests));
    ConservedDropResponses(t);
    var u := t.(responses := [], log := t.log + Destroys(t.responses));
    assert uid !in HeldUids(u);
    DestroyedCount(Unborn, u.log, uid);
  }
}
