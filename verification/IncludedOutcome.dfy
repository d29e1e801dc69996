/** What the user of included service discovery gets when requests of the procedure fail or are cancelled. */
module IncludedOutcome {
  import opened Bytes
  import opened AttDefs
  import opened AttCodec
  import opened AttRequests
  import opened Engine
  import opened EngineSafety
  import opened Holding
  import opened IncludedDiscovery
  import opened IncludedListing
  import opened Paging

  // ---------------------------------------------------------------- what can go wrong

  predicate IsError(bytes: seq<byte>) {
    |bytes| == 5 && bytes[0] == OP_ERROR && bytes[4] != 0
  }

  /** The server answers what our result functions see as it should, or by any error. */
  ghost predicate Answered(w: World, op: Op<Data>, search: Search) {
    Completes(w.eng, op) && w.eng.requests[0].live ==>
      IsError(op.input.bytes) || Serves(search, w.eng.requests[0].pdu, op.input.bytes)
  }

  predicate Refused(w: World, op: Op<Data>) {
    Completes(w.eng, op) && w.eng.requests[0].live && IsError(op.input.bytes)
  }

  predicate LiveOurs(c: Cmd<Data>) {
    c.live && c.data.Some?
  }

  /** A search that still has its function and declarations of the table in front of it. */
  predicate Searching(c: Cmd<Data>, t: seq<Include>) {
    LiveOurs(c) && c.data.value.Find? && FirstFrom(t, HandleOf, c.data.value.start) < |t|
  }

  /** A request of ours is answered by an error that does not just end the search, or times out. */
  ghost predicate Fails(w: World, op: Op<Data>) {
    match op
    case DoReceive(input) =>
      Refused(w, op) && (w.eng.requests[0].data.value.Resolve? || input.bytes[4] != ECODE_ATTR_NOT_FOUND)
    case DoTimeout => exists c <- w.eng.requests :: LiveOurs(c)
    case _ => false
  }

  /** The search is ended before the end of the table: the server says there is nothing more, or the request is
      cancelled. */
  ghost predicate Cuts(w: World, op: Op<Data>, t: seq<Include>) {
    match op
    case DoReceive(input) =>
      Refused(w, op) && input.bytes[4] == ECODE_ATTR_NOT_FOUND && Searching(w.eng.requests[0], t)
    case DoCancel(id) =>
      var i := IndexOf(w.eng.requests, id);
      i < |w.eng.requests| && Searching(w.eng.requests[i], t)
    case DoCancelAll => exists c <- w.eng.requests :: Searching(c, t)
    case _ => false
  }

  // ---------------------------------------------------------------- what the user is told

  /** What the user is given when the last reference goes. */
  function Verdict(isd: Isd): Result {
    Result(isd.err, if isd.err != 0 then None else Some(isd.includes))
  }

  ghost predicate Faithful(isd: Isd) {
    forall r <- isd.calls :: r == Verdict(isd)
  }

  /** An error is kept until the user is told. */
  ghost predicate Broken(isd: Isd) {
    isd.err != 0 && Faithful(isd)
  }

  /** The list and the error are not touched, and what the user has been told stays so. */
  ghost predicate Same(isd: Isd, isd1: Isd) {
    isd1.err == isd.err && isd1.includes == isd.includes && (Faithful(isd) ==> Faithful(isd1))
  }

  lemma UnrefSame(isd: Isd)
    ensures Same(isd, Unref(isd))
  {
  }

  lemma DiscardSame(isd: Isd, c: Cmd<Data>)
    ensures Same(isd, Discard(isd, c)) && Same(isd, Silence(isd, c))
  {
    if c.data.Some? {
      UnrefSame(Silence(isd, c));
    }
  }

  lemma {:induction false} DiscardAllSame(isd: Isd, q: seq<Cmd<Data>>)
    ensures Same(isd, DiscardAll(isd, q))
    decreases q
  {
    if q != [] {
      DiscardSame(isd, q[0]);
      DiscardAllSame(Discard(isd, q[0]), q[1..]);
    }
  }

  lemma CancelSame(isd: Isd, q: seq<Cmd<Data>>, id: nat)
    ensures Same(isd, CancelOne(isd, q, id)) && Same(isd, CancelOurs(isd, q))
  {
    hide DiscardAll, Discard, Silence;
    var i := IndexOf(q, id);
    if i < |q| {
      DiscardSame(isd, q[i]);
    }
    DiscardAllSame(isd, q);
    if q != [] {
      DiscardSame(isd, q[0]);
      DiscardAllSame(Silence(isd, q[0]), q[1..]);
    }
  }

  /** The timeout: the first error is what counts. */
  lemma {:induction false} AbortTells(isd: Isd, q: seq<Cmd<Data>>, status: byte)
    requires status != 0 && Faithful(isd) && Balanced(isd, Holders(q))
    ensures Broken(isd) || (exists c <- q :: LiveOurs(c)) ==> Broken(Abort(isd, q, status))
    ensures !(exists c <- q :: LiveOurs(c)) ==> Same(isd, Abort(isd, q, status))
    decreases q
  {
    if q != [] {
      var c := q[0];
      assert q == [c] + q[1..];
      if c.data.None? {
        AbortTells(isd, q[1..], ECODE_ABORTED);
      } else if c.live {
        assert c in q && LiveOurs(c);
        var next := Unref(WithError(isd.(responses := isd.responses + 1), status));
        assert Broken(next);
        AbortTells(next, q[1..], ECODE_ABORTED);
      } else {
        ForgetCounts(isd, c.data.value, Holders(q[1..]));
        UnrefSame(isd);
        AbortTells(Forget(isd, c.data.value), q[1..], ECODE_ABORTED);
      }
    }
  }

  // ---------------------------------------------------------------- an error is kept

  lemma {:induction false} EntriesBreak(w: World, es: seq<seq<byte>>)
    requires Broken(w.isd) && forall i :: 0 <= i < |es| ==> |es[i]| >= 6
    ensures Broken(TakeEntries(w, es).isd)
    decreases es
  {
    hide Send, RequestOf, FromEntry;
    if es != [] {
      EntriesBreak(TakeEntry(w, es[0]), es[1..]);
    }
  }

  lemma FindBreaks(w: World, status: byte, pdu: seq<byte>)
    requires Broken(w.isd) && (status == 0 ==> Readable(pdu))
    ensures Broken(FindCb(w, status, pdu).isd)
  {
    hide TakeEntries, Send, RequestOf;
    if status == 0 && DecList(OP_READ_BY_TYPE_RESP, pdu).Some? {
      var list := DecList(OP_READ_BY_TYPE_RESP, pdu).value;
      if list.len == 6 || list.len == 8 {
        EntriesBreak(w, list.data);
      }
    }
  }

  lemma ServedBreaks(w: World, q: Query, status: byte, pdu: seq<byte>)
    requires Broken(w.isd) && (status == 0 && q.Find? ==> Readable(pdu))
    ensures Broken(Served(w, q, status, pdu).isd)
  {
    hide FindCb;
    var counted := w.(isd := w.isd.(responses := w.isd.responses + 1));
    assert Broken(counted.isd);
    if q.Find? {
      FindBreaks(counted, status, pdu);
      UnrefSame(FindCb(counted, status, pdu).isd);
    } else {
      UnrefSame(ResolveCb(counted.isd, q.incl, status, pdu));
    }
  }

  lemma StaysBroken(w: World, op: Op<Data>)
    requires Counted(w) && WorldEnabled(w, op) && Broken(w.isd)
    ensures Broken(WorldStep(w, op).isd)
  {
    hide Served, Step, Abort, CancelOne, CancelOurs;
    if Completes(w.eng, op) {
      var c, bytes := w.eng.requests[0], op.input.bytes;
      if c.live {
        ServedBreaks(World(Receive(w.eng, op.input), w.isd), c.data.value, Status(c, bytes), bytes);
      } else {
        UnrefSame(w.isd);
      }
    } else {
      match op
      case DoTimeout => AbortTells(w.isd, w.eng.requests, ECODE_TIMEOUT);
      case DoCancel(id) => CancelSame(w.isd, w.eng.requests, id);
      case DoCancelAll => CancelSame(w.isd, w.eng.requests, 0);
      case _ =>
    }
  }

  // ---------------------------------------------------------------- the list up to where the search ended

  ghost predicate Sized(m: seq<Query>, search: Search) {
    forall q <- m :: q.Resolve? ==> ReadsUuid(q, search)
  }

  /** The list, followed by the includes that are being resolved in queue order, is what was found before the
      declaration with index `c`. */
  ghost predicate ListedTo(isd: Isd, m: seq<Query>, t: seq<Include>, search: Search, c: nat) {
    && c <= |t| && isd.err == 0 && isd.leaked == 0 && Sized(m, search) && Faithful(isd)
    && isd.includes + Resolved(m, search) == AllOf(t[..c])
  }

  /** Nothing is searched for any more: what is queued are reads of UUIDs, and searches without function. */
  ghost predicate Drains(q: seq<Cmd<Data>>) {
    forall c <- q :: c.data.Some? ==> (c.live <==> c.data.value.Resolve?)
  }

  ghost predicate Draining(w: World, t: seq<Include>, search: Search, c: nat) {
    Drains(w.eng.requests) && ListedTo(w.isd, Mine(w.eng.requests), t, search, c)
  }

  lemma {:induction false} MineOf(q: seq<Cmd<Data>>, i: nat)
    requires i < |q|
    ensures q[i].data.Some? ==> q[i].data.value in Mine(q)
  {
    if i > 0 {
      MineOf(q[1..], i - 1);
    }
  }

  lemma {:induction false} NoReads(q: seq<Cmd<Data>>, search: Search)
    requires forall c <- q :: c.data.Some? ==> c.data.value.Find?
    ensures Resolved(Mine(q), search) == []
  {
    if q != [] {
      assert q == [q[0]] + q[1..];
      NoReads(q[1..], search);
      MineHead(q);
      MineOne(q[0]);
      ResolvedConcat(Mine([q[0]]), Mine(q[1..]), search);
    }
  }

  /** A search, or a command of another user, can go without a UUID being lost. */
  lemma ResolvedWithout(q: seq<Cmd<Data>>, i: nat, search: Search)
    requires i < |q| && (q[i].data.Some? ==> q[i].data.value.Find?)
    ensures Resolved(Mine(Without(q, i)), search) == Resolved(Mine(q), search)
    ensures Sized(Mine(q), search) ==> Sized(Mine(Without(q, i)), search)
  {
    var a, b := q[..i], q[i + 1..];
    assert q == a + ([q[i]] + b);
    MineConcat(a, b);
    MineConcat(a, [q[i]] + b);
    MineConcat([q[i]], b);
    MineOne(q[i]);
    NoReads([q[i]], search);
    ResolvedConcat(Mine(a), Mine(b), search);
    ResolvedConcat(Mine(a), Mine([q[i]]) + Mine(b), search);
    ResolvedConcat(Mine([q[i]]), Mine(b), search);
    assert [] + Resolved(Mine(b), search) == Resolved(Mine(b), search);
  }

  lemma ListedSame(isd: Isd, isd1: Isd, m: seq<Query>, m1: seq<Query>, t: seq<Include>, search: Search,
                   c: nat)
    requires ListedTo(isd, m, t, search, c) && Same(isd, isd1) && isd1.leaked == 0
    requires Resolved(m1, search) == Resolved(m, search) && Sized(m1, search)
    ensures ListedTo(isd1, m1, t, search, c)
  {
  }

  // ---------------------------------------------------------------- cancellation

  /** A cancelled search: the rest of the queue is as it was. */
  lemma CancelFind(w: World, id: nat, i: nat, t: seq<Include>, search: Search, c: nat) returns (w1: World)
    requires Counted(w) && WorldEnabled(w, DoCancel(id)) && ListedTo(w.isd, Mine(w.eng.requests), t, search, c)
    requires i == IndexOf(w.eng.requests, id) < |w.eng.requests|
    requires w.eng.requests[i].data.Some? && w.eng.requests[i].data.value.Find? && Drains(Without(w.eng.requests, i))
    ensures w1 == WorldStep(w, DoCancel(id)) && Draining(w1, t, search, c)
  {
    hide Counted, ListedTo, Same;
    var q := w.eng.requests;
    w1 := CancelCounts(w, id);
    CancelSame(w.isd, q, id);
    assert w.isd.leaked == 0 by { ListedLeaks(w.isd, Mine(q), t, search, c); }
    ResolvedWithout(q, i, search);
    assert Sized(Mine(q), search) by { ListedLeaks(w.isd, Mine(q), t, search, c); }
    if i == 0 && q[0].sent {
      assert q[0 := q[0].(live := false)] == [q[0].(live := false)] + Without(q, 0);
      MineUpdate(q, q[0].(live := false));
      assert Drains(q[0 := q[0].(live := false)]);
    }
    ListedSame(w.isd, w1.isd, Mine(q), Mine(w1.eng.requests), t, search, c);
  }

  lemma ListedLeaks(isd: Isd, m: seq<Query>, t: seq<Include>, search: Search, c: nat)
    requires ListedTo(isd, m, t, search, c)
    ensures isd.leaked == 0 && Sized(m, search)
  {
  }

  /** Everything is cancelled while no UUID is being read. */
  lemma CancelFinds(w: World, t: seq<Include>, search: Search, c: nat) returns (w1: World)
    requires Counted(w) && WorldEnabled(w, DoCancelAll) && ListedTo(w.isd, Mine(w.eng.requests), t, search, c)
    requires forall d <- w.eng.requests :: d.data.Some? ==> d.data.value.Find?
    ensures w1 == WorldStep(w, DoCancelAll) && Draining(w1, t, search, c)
  {
    hide Counted, ListedTo, Same;
    var q := w.eng.requests;
    w1 := CancelAllCounts(w);
    CancelSame(w.isd, q, 0);
    ListedLeaks(w.isd, Mine(q), t, search, c);
    NoReads(q, search);
    NoReads(w1.eng.requests, search);
    NotRead(w1.eng.requests);
    ListedSame(w.isd, w1.isd, Mine(q), Mine(w1.eng.requests), t, search, c);
  }

  lemma {:induction false} NotRead(q: seq<Cmd<Data>>)
    requires forall c <- q :: c.data.Some? ==> c.data.value.Find?
    ensures forall x <- Mine(q) :: x.Find?
  {
    if q != [] {
      assert q == [q[0]] + q[1..];
      NotRead(q[1..]);
    }
  }

  // ---------------------------------------------------------------- steps of a search that has ended

  lemma DrainsHead(q: seq<Cmd<Data>>)
    requires Drains(q) && q != []
    ensures Drains(q[1..]) && Drains(q[0 := q[0].(sent := true)])
  {
    var sent := q[0].(sent := true);
    assert q[0 := sent] == [sent] + q[1..] && q[0] in q;
    assert forall d <- q[1..] :: d in q;
  }

  lemma DrainsMore(q: seq<Cmd<Data>>, c: Cmd<Data>)
    requires Drains(q) && c.data.None?
    ensures Drains(q + [c]) && Drains([c] + q)
  {
  }

  /** What a write event does to the requests. */
  lemma WrittenRequests(e: State<Data>, hup: bool, ok: bool)
    ensures var q, q1 := e.requests, Write(e, hup, ok).requests;
            q1 == q || (q != [] && (q1 == q[1..] || q1 == q[0 := q[0].(sent := true)]))
  {
    hide Expected;
  }

  /** Other users add commands of their own and take them away, and the head may become sent. */
  lemma OthersDrain(w: World, op: Op<Data>)
    requires OurCmds(w) && OneSent(w.eng) && WorldEnabled(w, op) && !Completes(w.eng, op)
    requires !op.DoTimeout? && !op.DoCancel? && !op.DoCancelAll? && Drains(w.eng.requests)
    ensures Drains(Step(w.eng, op).requests)
  {
    hide Drains, IsResponse, Write;
    var q := w.eng.requests;
    if q != [] {
      DrainsHead(q);
    }
    match op
    case DoSend(id, pdu, live, _) =>
      if !w.eng.stale {
        var e1, c := OthersSend(w.eng, id, pdu, live);
        DrainsMore(q, c);
      }
    case DoWrite(hup, ok) => WrittenRequests(w.eng, hup, ok);
    case DoReceive(input) => var e1 := OthersReceive(w.eng, input);
    case DoEndReceive =>
  }

  /** A reference dropped. */
  lemma UnrefListed(isd: Isd, m: seq<Query>, t: seq<Include>, search: Search, c: nat)
    requires ListedTo(isd, m, t, search, c)
    ensures ListedTo(Unref(isd), m, t, search, c)
  {
    UnrefSame(isd);
  }

  /** A UUID has been read for the first include that waits for one. */
  lemma ReadListed(isd: Isd, m: seq<Query>, t: seq<Include>, search: Search, c: nat, bytes: seq<byte>)
    returns (isd1: Isd)
    requires m != [] && m[0].Resolve? && ListedTo(isd, m, t, search, c) && isd.calls == []
    requires bytes == [OP_READ_RESP] + search.valueAt(m[0].incl.start)
    ensures isd1 == ResolveCb(isd.(responses := isd.responses + 1), m[0].incl, 0, bytes)
    ensures ListedTo(isd1, m[1..], t, search, c)
  {
    var x := m[0].incl.(wide := search.valueAt(m[0].incl.start));
    assert m[0] in m && bytes[1..] == search.valueAt(m[0].incl.start);
    isd1 := isd.(responses := isd.responses + 1, includes := isd.includes + [x]);
    Assoc(isd.includes, [x], Resolved(m[1..], search));
  }

  /** An error response to a command of ours that still has its function. */
  lemma RefusedStatus(c: Cmd<Data>, bytes: seq<byte>)
    requires IsError(bytes)
    ensures Status(c, bytes) == bytes[4] != 0
  {
  }

  lemma ForgottenDrains(w: World, bytes: seq<byte>, t: seq<Include>, search: Search, c: nat)
    requires Counted(w) && Draining(w, t, search, c)
    requires WorldEnabled(w, DoReceive(Pdu(bytes))) && Completes(w.eng, DoReceive(Pdu(bytes)))
    requires !w.eng.requests[0].live
    ensures Draining(Complete(w, bytes), t, search, c)
  {
    hide ListedTo, Same, Counted, Status, IsResponse, Unref;
    var q, head := w.eng.requests, w.eng.requests[0];
    var popped := PopOurs(w, bytes);
    assert q == [head] + q[1..] && popped.eng.requests == q[1..] && Without(q, 0) == q[1..];
    ResolvedWithout(q, 0, search);
    UnrefSame(w.isd);
    ListedLeaks(w.isd, Mine(q), t, search, c);
    assert Unref(w.isd).leaked == 0 by { UnrefLeaks(w.isd); }
    ListedSame(w.isd, Unref(w.isd), Mine(q), Mine(q[1..]), t, search, c);
  }

  lemma UnrefLeaks(isd: Isd)
    ensures Unref(isd).leaked == isd.leaked
  {
  }

  /** The head of the queue waits for its answer, so nobody has been called yet. */
  lemma NotCalled(w: World, bytes: seq<byte>) returns (popped: World)
    requires Counted(w) && WorldEnabled(w, DoReceive(Pdu(bytes))) && Completes(w.eng, DoReceive(Pdu(bytes)))
    requires w.eng.requests[0].live
    ensures popped == World(Receive(w.eng, Pdu(bytes)), w.isd) && popped.eng.requests == w.eng.requests[1..]
    ensures Mine(w.eng.requests) == [w.eng.requests[0].data.value] + Mine(popped.eng.requests)
    ensures OurCmd(w.eng.requests[0], w.isd.end) && w.isd.calls == []
    ensures var c := w.eng.requests[0];
            var z := Served(popped, c.data.value, Status(c, bytes), bytes);
            z.eng.current.Some? && Complete(w, bytes) == World(EndReceive(z.eng), z.isd)
  {
    hide Served, Status, OurCmd, IsResponse;
    popped := PopOurs(w, bytes);
    var c := w.eng.requests[0];
    var z := ServedCounts(popped, c.data.value, Status(c, bytes), bytes);
  }

  /** A read of a UUID names the handle that has it. */
  lemma ReadServed(search: Search, c: Cmd<Data>, end: nat, bytes: seq<byte>)
    requires c.data.Some? && OurCmd(c, end) && ReadsUuid(c.data.value, search) && Serves(search, c.pdu, bytes)
    ensures bytes == [OP_READ_RESP] + search.valueAt(c.data.value.incl.start)
  {
    ReadParsed(c.data.value.incl.start);
  }

  /** A response to a queue that only has UUIDs left to read. */
  lemma DrainingComplete(w: World, bytes: seq<byte>, t: seq<Include>, search: Search, c: nat)
    requires Counted(w) && Draining(w, t, search, c)
    requires WorldEnabled(w, DoReceive(Pdu(bytes))) && Completes(w.eng, DoReceive(Pdu(bytes)))
    requires Answered(w, DoReceive(Pdu(bytes)), search)
    ensures var z := Complete(w, bytes);
            if Fails(w, DoReceive(Pdu(bytes))) then Broken(z.isd) else Draining(z, t, search, c)
  {
    hide ListedTo, Counted, Status, Complete, IsResponse, OurCmd;
    var head := w.eng.requests[0];
    if !head.live {
      ForgottenDrains(w, bytes, t, search, c);
    } else {
      var popped := NotCalled(w, bytes);
      assert w.eng.requests == [head] + popped.eng.requests && head in w.eng.requests;
      if IsError(bytes) {
        RefusedStatus(head, bytes);
        RefusedBreaks(popped, head.data.value, bytes[4], bytes);
      } else {
        var m := Mine(w.eng.requests);
        ListedLeaks(w.isd, m, t, search, c);
        assert m[0] == head.data.value && m[0] in m;
        ReadServed(search, head, w.isd.end, bytes);
        StatusOf(head, w.isd.end, bytes);
        assert m[1..] == Mine(popped.eng.requests);
        var isd1 := ReadListed(w.isd, m, t, search, c, bytes);
        UnrefListed(isd1, m[1..], t, search, c);
      }
    }
  }

  /** An error that does not just end the search. */
  lemma RefusedBreaks(w: World, q: Query, status: byte, bytes: seq<byte>)
    requires status != 0 && w.isd.calls == [] && (q.Resolve? || status != ECODE_ATTR_NOT_FOUND)
    ensures Broken(Served(w, q, status, bytes).isd)
  {
    var isd := WithError(w.isd.(responses := w.isd.responses + 1), status);
    UnrefSame(isd);
  }

  lemma DrainingTimeout(w: World, t: seq<Include>, search: Search, c: nat)
    requires Counted(w) && Draining(w, t, search, c) && WorldEnabled(w, DoTimeout)
    ensures var z := WorldStep(w, DoTimeout);
            if Fails(w, DoTimeout) then Broken(z.isd) else Draining(z, t, search, c)
  {
    var q := w.eng.requests;
    var z := TimeoutCounts(w);
    AbortTells(w.isd, q, ECODE_TIMEOUT);
    if !Fails(w, DoTimeout) {
      NoReads(q, search);
      ListedSame(w.isd, z.isd, Mine(q), [], t, search, c);
    }
  }

  lemma DrainingCancel(w: World, id: nat, t: seq<Include>, search: Search, c: nat)
    requires Counted(w) && Draining(w, t, search, c) && WorldEnabled(w, DoCancel(id)) && !Leaks(w, DoCancel(id))
    ensures Draining(WorldStep(w, DoCancel(id)), t, search, c)
  {
    hide Counted, ListedTo, Without, Cancel, CancelOne;
    var q := w.eng.requests;
    var i := IndexOf(q, id);
    if i < |q| && q[i].data.Some? {
      assert q[i] in q;
      DrainsLess(q, i);
      var z := CancelFind(w, id, i, t, search, c);
    } else {
      CancelSpares(w, id);
      OthersCancelDrains(w, id);
    }
  }

  lemma DrainsLess(q: seq<Cmd<Data>>, i: nat)
    requires Drains(q) && i < |q|
    ensures Drains(Without(q, i)) && (q[0].data.None? ==> Drains(q[0 := q[0].(live := false)]))
  {
    assert forall d <- Without(q, i) :: d in q;
    var dead := q[0].(live := false);
    assert q[0 := dead] == [dead] + q[1..];
    assert forall d <- q[1..] :: d in q;
  }

  lemma OthersCancelDrains(w: World, id: nat)
    requires Drains(w.eng.requests) && Spared(w, DoCancel(id))
    ensures Drains(Cancel(w.eng, id).0.requests)
  {
    hide Drains, Without;
    var i := IndexOf(w.eng.requests, id);
    if i < |w.eng.requests| {
      DrainsLess(w.eng.requests, i);
    }
  }

  /** Once the search has ended every step that does not fail a read of a UUID keeps the list. */
  lemma DrainingStep(w: World, op: Op<Data>, t: seq<Include>, search: Search, c: nat)
    requires Counted(w) && OneSent(w.eng) && Draining(w, t, search, c)
    requires WorldEnabled(w, op) && Answered(w, op, search) && !Leaks(w, op)
    ensures !Cuts(w, op, t)
    ensures if Fails(w, op) then Broken(WorldStep(w, op).isd) else Draining(WorldStep(w, op), t, search, c)
  {
    hide Draining, Counted, Complete;
    NoSearch(w, op, t, search, c);
    if Completes(w.eng, op) {
      DrainingComplete(w, op.input.bytes, t, search, c);
    } else {
      match op
      case DoTimeout => DrainingTimeout(w, t, search, c);
      case DoCancel(id) => DrainingCancel(w, id, t, search, c);
      case DoCancelAll => DrainingCancelAll(w, t, search, c);
      case _ => DrainingOthers(w, op, t, search, c);
    }
  }

  lemma NoSearch(w: World, op: Op<Data>, t: seq<Include>, search: Search, c: nat)
    requires Draining(w, t, search, c)
    ensures !Cuts(w, op, t)
  {
    assert forall d <- w.eng.requests :: !Searching(d, t);
  }

  lemma DrainingCancelAll(w: World, t: seq<Include>, search: Search, c: nat)
    requires Counted(w) && Draining(w, t, search, c) && WorldEnabled(w, DoCancelAll) && !Leaks(w, DoCancelAll)
    ensures Draining(WorldStep(w, DoCancelAll), t, search, c)
  {
    var q := w.eng.requests;
    forall d | d in q && d.data.Some? ensures d.data.value.Find? {
      var i :| 0 <= i < |q| && q[i] == d;
      assert !LiveResolve(q[i]);
    }
    var z := CancelFinds(w, t, search, c);
  }

  lemma DrainingOthers(w: World, op: Op<Data>, t: seq<Include>, search: Search, c: nat)
    requires Counted(w) && OneSent(w.eng) && Draining(w, t, search, c) && WorldEnabled(w, op)
    requires !Completes(w.eng, op) && !op.DoTimeout? && !op.DoCancel? && !op.DoCancelAll?
    ensures Draining(WorldStep(w, op), t, search, c)
  {
    hide ListedTo, Drains, Step;
    OthersUntouched(w, op);
    OthersDrain(w, op);
  }

  // ---------------------------------------------------------------- steps of the search

  lemma ListingListed(w: World, t: seq<Include>, search: Search) returns (m: seq<Query>)
    requires Counted(w) && Listing(w, t, search)
    ensures m == Mine(w.eng.requests) && ListedTo(w.isd, m, t, search, Found(m, t))
    ensures m == [] ==> Found(m, t) == |t|
    ensures m != [] ==> w.isd.calls == []
    ensures FindLast(m, search) && AllLive(w.eng.requests)
  {
    m := Mine(w.eng.requests);
    HoldersMine(w.eng.requests);
    if m == [] {
      assert w.isd.includes + [] == w.isd.includes && t[..|t|] == t;
    }
  }

  lemma MineSplit(q: seq<Cmd<Data>>, i: nat)
    requires i < |q| && q[i].data.Some?
    ensures Mine(q) == Mine(q[..i]) + [q[i].data.value] + Mine(q[i + 1..])
  {
    var a, b := q[..i], q[i + 1..];
    assert q == a + ([q[i]] + b);
    MineConcat(a, [q[i]] + b);
    MineConcat([q[i]], b);
    MineOne(q[i]);
    Assoc(Mine(a), [q[i].data.value], Mine(b));
  }

  lemma {:induction false} ReadsIn(q: seq<Cmd<Data>>)
    requires forall x <- Mine(q) :: x.Resolve?
    ensures forall d <- q :: d.data.Some? ==> d.data.value.Resolve?
  {
    forall i | 0 <= i < |q| && q[i].data.Some? ensures q[i].data.value.Resolve? {
      MineOf(q, i);
    }
  }

  /** A search of ours in the queue is the last command of ours. */
  lemma SearchLast(q: seq<Cmd<Data>>, i: nat, search: Search)
    requires i < |q| && q[i].data.Some? && q[i].data.value.Find? && FindLast(Mine(q), search)
    ensures Mine(q) != [] && Mine(q)[|Mine(q)| - 1] == q[i].data.value
    ensures forall d <- Without(q, i) :: d.data.Some? ==> d.data.value.Resolve?
  {
    hide Mine;
    var a, b, m := q[..i], q[i + 1..], Mine(q);
    MineSplit(q, i);
    assert m[|Mine(a)|] == q[i].data.value;
    assert Mine(b) == [];
    assert forall k :: 0 <= k < |Mine(a)| ==> m[k] == Mine(a)[k];
    ReadsIn(a);
    MineNone(b);
    assert Without(q, i) == a + b;
  }

  /** The search is cancelled: what was found before its start handle is what will be listed. */
  lemma ListingCancel(w: World, id: nat, t: seq<Include>, search: Search) returns (c: nat)
    requires Counted(w) && Listing(w, t, search) && WorldEnabled(w, DoCancel(id)) && !Leaks(w, DoCancel(id))
    requires !Spared(w, DoCancel(id))
    ensures Draining(WorldStep(w, DoCancel(id)), t, search, c) && (c < |t| <==> Cuts(w, DoCancel(id), t))
    ensures !Fails(w, DoCancel(id))
  {
    var q := w.eng.requests;
    var i := IndexOf(q, id);
    var m := ListingListed(w, t, search);
    SearchLast(q, i, search);
    c := Found(m, t);
    assert q[i].live && c == FirstFrom(t, HandleOf, q[i].data.value.start);
    assert Drains(Without(q, i)) by {
      assert forall d <- Without(q, i) :: d in q;
    }
    var z := CancelFind(w, id, i, t, search, c);
  }

  /** Without reads of UUIDs all that can be queued is the search. */
  lemma OnlySearch(q: seq<Cmd<Data>>, t: seq<Include>, search: Search)
    requires AllLive(q) && FindLast(Mine(q), search) && !SomeLiveResolve(q)
    ensures forall d <- q :: d.data.Some? ==> d.data.value.Find?
    ensures Found(Mine(q), t) < |t| <==> exists d <- q :: Searching(d, t)
  {
    hide FirstFrom, FindLast;
    var c := Found(Mine(q), t);
    forall i | 0 <= i < |q| && q[i].data.Some? ensures q[i].data.value.Find? && (Searching(q[i], t) <==> c < |t|) {
      assert !LiveResolve(q[i]);
      SearchLast(q, i, search);
    }
    if c < |t| {
      MineNone(q);
      var i :| 0 <= i < |q| && q[i].data.Some?;
      assert q[i] in q && Searching(q[i], t);
    }
  }

  lemma ListingCancelAll(w: World, t: seq<Include>, search: Search) returns (c: nat)
    requires Counted(w) && Listing(w, t, search) && WorldEnabled(w, DoCancelAll) && !Leaks(w, DoCancelAll)
    ensures Draining(WorldStep(w, DoCancelAll), t, search, c) && (c < |t| <==> Cuts(w, DoCancelAll, t))
    ensures !Fails(w, DoCancelAll)
  {
    hide Searching, Draining, ListedTo, WorldStep, Found;
    var m := ListingListed(w, t, search);
    c := Found(m, t);
    OnlySearch(w.eng.requests, t, search);
    var z := CancelFinds(w, t, search, c);
  }

  lemma ListingTimeout(w: World, t: seq<Include>, search: Search)
    requires Counted(w) && Listing(w, t, search) && WorldEnabled(w, DoTimeout) && Mine(w.eng.requests) != []
    ensures Fails(w, DoTimeout) && Broken(WorldStep(w, DoTimeout).isd)
  {
    var q := w.eng.requests;
    var m := ListingListed(w, t, search);
    MineNone(q);
    var i :| 0 <= i < |q| && q[i].data.Some?;
    assert q[i] in q && LiveOurs(q[i]);
    AbortTells(w.isd, q, ECODE_TIMEOUT);
  }

  /** An error response while the search is on. */
  lemma ListingRefused(w: World, bytes: seq<byte>, t: seq<Include>, search: Search) returns (c: nat)
    requires Counted(w) && Listing(w, t, search) && WorldEnabled(w, DoReceive(Pdu(bytes)))
    requires Completes(w.eng, DoReceive(Pdu(bytes))) && IsError(bytes)
    ensures var op, z := DoReceive(Pdu(bytes)), Complete(w, bytes);
            if Fails(w, op) then Broken(z.isd)
            else Draining(z, t, search, c) && (c < |t| <==> Cuts(w, op, t))
  {
    hide ListedTo, Counted, Status, Complete, IsResponse, OurCmd, Drains, Listing, FindLast, Resolved;
    var q, head := w.eng.requests, w.eng.requests[0];
    var m := ListingListed(w, t, search);
    var popped := NotCalled(w, bytes);
    assert m[0] == head.data.value && m[1..] == Mine(q[1..]);
    RefusedStatus(head, bytes);
    c := Found(m, t);
    if head.data.value.Resolve? || bytes[4] != ECODE_ATTR_NOT_FOUND {
      RefusedBreaks(popped, head.data.value, bytes[4], bytes);
    } else {
      NothingLeft(q[1..], m, search);
      EndedListed(w.isd, m, t, search, c);
    }
  }

  /** The server says that there is nothing more. */
  lemma EndedListed(isd: Isd, m: seq<Query>, t: seq<Include>, search: Search, c: nat)
    requires ListedTo(isd, m, t, search, c) && Resolved(m, search) == []
    ensures ListedTo(Unref(isd.(responses := isd.responses + 1)), [], t, search, c)
  {
    UnrefListed(isd.(responses := isd.responses + 1), [], t, search, c);
  }

  lemma NothingLeft(rest: seq<Cmd<Data>>, m: seq<Query>, search: Search)
    requires m != [] && m[0].Find? && FindLast(m, search) && Mine(rest) == m[1..]
    ensures m == [m[0]] && Mine(rest) == [] && Resolved(m, search) == [] && Drains(rest)
  {
    assert |m| == 1;
    MineNone(rest);
  }

  /** Where the procedure stands, by what has happened to it; nothing of it has leaked. */
  ghost predicate Stage(w: World, t: seq<Include>, search: Search, failed: bool, cut: bool) {
    if failed then Broken(w.isd)
    else if cut then exists c: nat :: c < |t| && Draining(w, t, search, c)
    else Listing(w, t, search) || Draining(w, t, search, |t|)
  }

  lemma NothingOfOurs(w: World, op: Op<Data>, t: seq<Include>)
    requires Spared(w, op) && !Refused(w, op) && (op.DoTimeout? || op.DoCancelAll? ==> Mine(w.eng.requests) == [])
    ensures !Fails(w, op) && !Cuts(w, op, t)
  {
    MineNone(w.eng.requests);
  }

  /** A step while the search is on. */
  lemma ListingStep(w: World, op: Op<Data>, t: seq<Include>, search: Search)
    requires Counted(w) && OneSent(w.eng) && Listing(w, t, search) && Aimed(search, t, w.isd.end)
    requires WorldEnabled(w, op) && Answered(w, op, search) && !Leaks(w, op)
    ensures Stage(WorldStep(w, op), t, search, Fails(w, op), Cuts(w, op, t))
  {
    hide Counted, Draining, Leaks, Complete, Serves, Cuts, Fails;
    if Refused(w, op) {
      var c := ListingRefused(w, op.input.bytes, t, search);
      CutStage(WorldStep(w, op), op, w, t, search, c);
    } else if op.DoTimeout? && Mine(w.eng.requests) != [] {
      ListingTimeout(w, t, search);
    } else if op.DoCancelAll? && Mine(w.eng.requests) != [] {
      var c := ListingCancelAll(w, t, search);
      CutStage(WorldStep(w, op), op, w, t, search, c);
    } else if !Spared(w, op) {
      var c := ListingCancel(w, op.cancelId, t, search);
      CutStage(WorldStep(w, op), op, w, t, search, c);
    } else {
      NothingOfOurs(w, op, t);
      HeadLive(w, op, t, search);
      WorldStepLists(w, op, t, search);
    }
  }

  lemma HeadLive(w: World, op: Op<Data>, t: seq<Include>, search: Search)
    requires Listing(w, t, search)
    ensures Completes(w.eng, op) ==> w.eng.requests[0].live
  {
  }

  lemma CutStage(z: World, op: Op<Data>, w: World, t: seq<Include>, search: Search, c: nat)
    requires Fails(w, op) ==> Broken(z.isd)
    requires !Fails(w, op) ==> Draining(z, t, search, c) && (c < |t| <==> Cuts(w, op, t))
    ensures Stage(z, t, search, Fails(w, op), Cuts(w, op, t))
  {
    hide Fails, Cuts;
    assert !Fails(w, op) ==> c <= |t|;
  }

  /** Every step that leaks nothing moves the procedure on to where its history says it stands. */
  lemma StageStep(w: World, op: Op<Data>, t: seq<Include>, search: Search, failed: bool, cut: bool)
    requires Counted(w) && OneSent(w.eng) && Stage(w, t, search, failed, cut) && Aimed(search, t, w.isd.end)
    requires WorldEnabled(w, op) && Answered(w, op, search) && !Leaks(w, op)
    ensures Stage(WorldStep(w, op), t, search, failed || Fails(w, op), cut || Cuts(w, op, t))
  {
    hide Counted, Draining, Listing, Broken, Leaks, Fails, Cuts, WorldStep, Aimed, Answered;
    if failed {
      StaysBroken(w, op);
    } else if cut {
      var c: nat :| c < |t| && Draining(w, t, search, c);
      DrainingStep(w, op, t, search, c);
    } else if Listing(w, t, search) {
      ListingStep(w, op, t, search);
    } else {
      DrainingStep(w, op, t, search, |t|);
    }
  }

  // ---------------------------------------------------------------- runs

  ghost predicate EverFailed(worlds: seq<World>, ops: seq<Op<Data>>, n: nat)
    requires n <= |ops| < |worlds|
  {
    exists k :: 0 <= k < n && Fails(worlds[k], ops[k])
  }

  ghost predicate EverCut(worlds: seq<World>, ops: seq<Op<Data>>, t: seq<Include>, n: nat)
    requires n <= |ops| < |worlds|
  {
    exists k :: 0 <= k < n && Cuts(worlds[k], ops[k], t)
  }

  lemma HistoryStep(worlds: seq<World>, ops: seq<Op<Data>>, t: seq<Include>, i: nat)
    requires 0 < i <= |ops| < |worlds|
    ensures EverFailed(worlds, ops, i) <==> EverFailed(worlds, ops, i - 1) || Fails(worlds[i - 1], ops[i - 1])
    ensures EverCut(worlds, ops, t, i) <==> EverCut(worlds, ops, t, i - 1) || Cuts(worlds[i - 1], ops[i - 1], t)
  {
    hide Fails, Cuts;
  }

  lemma {:induction false} RunStage(worlds: seq<World>, ops: seq<Op<Data>>, e: State<Data>, start: nat, end: nat,
                                    t: seq<Include>, search: Search, i: nat)
    requires IsIncludeRun(worlds, ops, e, start, end) && !e.stale && i < |worlds| && !Leaked(worlds, ops, i)
    requires Aimed(search, t, end) && search.low == start
    requires forall k :: 0 <= k < |ops| ==> Answered(worlds[k], ops[k], search)
    ensures Stage(worlds[i], t, search, EverFailed(worlds, ops, i), EverCut(worlds, ops, t, i))
  {
    hide WorldStep, WorldEnabled, Answered, Counted, Stage, Fails, Cuts, EverFailed, EverCut, Leaks, Leaked, Ready,
         Aimed, Kept, OneSent;
    if i == 0 {
      var w := StartLists(e, start, end, t, search);
      StartStage(worlds, ops, t, search);
    } else {
      LeakedStep(worlds, ops, i);
      RunStage(worlds, ops, e, start, end, t, search, i - 1);
      RunKept(worlds, ops, e, start, end, i - 1);
      assert IsStep(worlds[i - 1], ops[i - 1], worlds[i]);
      StageStep(worlds[i - 1], ops[i - 1], t, search, EverFailed(worlds, ops, i - 1), EverCut(worlds, ops, t, i - 1));
      HistoryStep(worlds, ops, t, i);
    }
  }

  lemma StartStage(worlds: seq<World>, ops: seq<Op<Data>>, t: seq<Include>, search: Search)
    requires |worlds| == |ops| + 1 && Listing(worlds[0], t, search)
    ensures Stage(worlds[0], t, search, EverFailed(worlds, ops, 0), EverCut(worlds, ops, t, 0))
  {
  }

  lemma RunKept(worlds: seq<World>, ops: seq<Op<Data>>, e: State<Data>, start: nat, end: nat, i: nat)
    requires IsIncludeRun(worlds, ops, e, start, end) && i < |worlds|
    ensures OneSent(worlds[i].eng) && Counted(worlds[i]) && worlds[i].isd.end == end
  {
    var w := StartCounts(e, start, end);
    StepsCount(worlds, ops, end, i);
  }

  /** What the user has been told when no command of the procedure is left. */
  lemma StageTells(w: World, t: seq<Include>, search: Search, failed: bool, cut: bool)
    requires Stage(w, t, search, failed, cut) && Mine(w.eng.requests) == [] && |w.isd.calls| == 1
    ensures var r := w.isd.calls[0];
            if failed then r.err != 0 && r.list == None
            else if cut then exists c: nat :: c < |t| && r == Result(0, Some(AllOf(t[..c])))
            else r == Result(0, Some(AllOf(t)))
  {
    assert w.isd.calls[0] in w.isd.calls && t[..|t|] == t;
    if !failed && cut {
      var c: nat :| c < |t| && Draining(w, t, search, c);
      assert w.isd.includes + [] == w.isd.includes;
    }
    assert w.isd.includes + [] == w.isd.includes;
  }

  /** Whatever the server answers with an error, whatever times out and whoever cancels what: once no command
      of the procedure is left, the user has been given exactly the includes of the table, if and only if no
      read of a UUID was cancelled, no request failed, and the search was neither refused nor cancelled before
      the end of the table.  Otherwise the user has not been called, was given an error without a list, or a
      part of the list as if it were the whole. */
  lemma IncludesOutcome(worlds: seq<World>, ops: seq<Op<Data>>, e: State<Data>, start: nat, end: nat,
                        t: seq<Include>, search: Search, i: nat)
    requires IsIncludeRun(worlds, ops, e, start, end) && !e.stale && i < |worlds|
    requires Aimed(search, t, end) && search.low == start
    requires forall k :: 0 <= k < |ops| ==> Answered(worlds[k], ops[k], search)
    requires Mine(worlds[i].eng.requests) == []
    ensures var calls, failed, cut := worlds[i].isd.calls, EverFailed(worlds, ops, i), EverCut(worlds, ops, t, i);
            && (calls == [Result(0, Some(AllOf(t)))] <==> !Leaked(worlds, ops, i) && !failed && !cut)
            && if Leaked(worlds, ops, i) then calls == []
               else if failed then |calls| == 1 && calls[0].err != 0 && calls[0].list == None
               else if cut then exists c: nat :: c < |t| && calls == [Result(0, Some(AllOf(t[..c])))]
               else calls == [Result(0, Some(AllOf(t)))]
  {
    hide Stage, EverFailed, EverCut, Leaked;
    CalledOnceAtZero(worlds, ops, e, start, end, i);
    if !Leaked(worlds, ops, i) {
      RunStage(worlds, ops, e, start, end, t, search, i);
      StageTells(worlds[i], t, search, EverFailed(worlds, ops, i), EverCut(worlds, ops, t, i));
    }
  }
}
