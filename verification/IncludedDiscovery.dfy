/** Included service discovery: `gatt_find_included` on the transaction engine.  Includes of services with
    128-bit UUIDs need a read of their own, which is queued behind the request that found them. */
module IncludedDiscovery {
  import opened Bytes
  import opened AttDefs
  import opened AttCodec
  import opened AttUuid
  import opened Engine
  import opened EngineSafety
  import opened Holding
  import opened GAttrib

  const INCLUDE_UUID: nat := 0x2802

  /** `struct gatt_included`; `wide` stays empty until the UUID is known. */
  datatype Included = Included(handle: nat, start: nat, end: nat, wide: seq<byte>)

  /** The request a command of the procedure makes. */
  datatype Query = Find(start: nat) | Resolve(incl: Included)

  type Data = Option<Query>

  /** What the user is given: no list with an error. */
  datatype Result = Result(err: byte, list: Option<seq<Included>>)

  /** `struct included_discovery`.  `calls`, `freed`, `responses` (the result functions run) and `leaked` (the
      references that nothing is left to drop) are history. */
  datatype Isd = Isd(end: nat, refs: int, err: byte, includes: seq<Included>, calls: seq<Result>, freed: nat,
                     responses: nat, leaked: nat)

  datatype World = World(eng: State<Data>, isd: Isd)

  // ---------------------------------------------------------------- the callbacks

  /** `isd_unref`. */
  function Unref(isd: Isd): Isd {
    if isd.refs - 1 > 0 then isd.(refs := isd.refs - 1)
    else
      isd.(refs := isd.refs - 1, freed := isd.freed + 1,
           calls := isd.calls + [Result(isd.err, if isd.err != 0 then None else Some(isd.includes))])
  }

  function WithError(isd: Isd, err: byte): Isd {
    if isd.err == 0 then isd.(err := err) else isd
  }

  function RequestOf(q: Query, end: nat): (pdu: seq<byte>)
    ensures pdu != []
  {
    match q
    case Find(start) => ReadByTypeReq(start, end, INCLUDE_UUID)
    case Resolve(incl) => ReadReq(incl.start)
  }

  /** `find_included` and `resolve_included_uuid`: a reference is taken whether or not the engine accepts
      the request. */
  function Ask(w: World, q: Query): World {
    World(Send(w.eng, 0, RequestOf(q, w.isd.end), true, Some(q)).0,
          w.isd.(refs := w.isd.refs + 1, leaked := if w.eng.stale then w.isd.leaked + 1 else w.isd.leaked))
  }

  /** `included_from_buf`. */
  function FromEntry(e: seq<byte>): Included
    requires |e| >= 6
  {
    Included(FromLE16(e), FromLE16(e[2..]), FromLE16(e[4..]), if |e| == 8 then Widen(e[6..]) else [])
  }

  /** One entry of the list in `find_included_cb`. */
  function TakeEntry(w: World, e: seq<byte>): World
    requires |e| >= 6
  {
    if |e| == 6 then Ask(w, Resolve(FromEntry(e)))
    else w.(isd := w.isd.(includes := w.isd.includes + [FromEntry(e)]))
  }

  function TakeEntries(w: World, es: seq<seq<byte>>): World
    requires forall i :: 0 <= i < |es| ==> |es[i]| >= 6
    decreases es
  {
    if es == [] then w else TakeEntries(TakeEntry(w, es[0]), es[1..])
  }

  /** A response that can be cut into entries: the C code divides by the length byte. */
  predicate Readable(pdu: seq<byte>) {
    |pdu| >= 2 && (pdu[0] == OP_READ_BY_TYPE_RESP ==> pdu[1] > 0)
  }

  /** The loop of `find_included_cb`, and the request for what follows the last entry. */
  function TakeList(w: World, es: seq<seq<byte>>): World
    requires forall i :: 0 <= i < |es| ==> |es[i]| >= 6
  {
    var taken := TakeEntries(w, es);
    var last := if es == [] then w.isd.end else FromLE16(es[|es| - 1]);
    if last < w.isd.end then Ask(taken, Find(last + 1)) else taken
  }

  /** `find_included_cb`. */
  function FindCb(w: World, status: byte, pdu: seq<byte>): World
    requires status == 0 ==> Readable(pdu)
  {
    if status != 0 then w.(isd := WithError(w.isd, if status == ECODE_ATTR_NOT_FOUND then 0 else status))
    else
      match DecList(OP_READ_BY_TYPE_RESP, pdu)
      case None => w.(isd := WithError(w.isd, ECODE_IO))
      case Some(list) =>
        if list.len != 6 && list.len != 8 then w.(isd := WithError(w.isd, ECODE_IO))
        else TakeList(w, list.data)
  }

  /** `resolve_included_uuid_cb`, without its last statement, which drops the reference. */
  function ResolveCb(isd: Isd, incl: Included, status: byte, pdu: seq<byte>): Isd {
    if status != 0 then WithError(isd, status)
    else if |pdu| != 17 || pdu[0] != OP_READ_RESP then WithError(isd, ECODE_IO)
    else isd.(includes := isd.includes + [incl.(wide := pdu[1..])])
  }

  /** A UUID is taken from a read response (0x0B) of 16 bytes; a response of another length is an error (0x80), unless
      one has been noted before. */
  lemma UuidTaken(isd: Isd, incl: Included, pdu: seq<byte>)
    ensures var z := ResolveCb(isd, incl, 0, pdu);
            if |pdu| == 17 && pdu[0] == 0x0B then
              z.includes == isd.includes + [Included(incl.handle, incl.start, incl.end, pdu[1..])] && z.err == isd.err
            else
              z.includes == isd.includes && z.err == if isd.err != 0 then isd.err else 0x80
  {
  }

  /** The result function of a command followed by its destruction; either way one reference goes. */
  function Served(w: World, q: Query, status: byte, pdu: seq<byte>): World
    requires status == 0 && q.Find? ==> Readable(pdu)
  {
    var counted := w.(isd := w.isd.(responses := w.isd.responses + 1));
    match q
    case Find(_) =>
      var found := FindCb(counted, status, pdu);
      World(found.eng, Unref(found.isd))
    case Resolve(incl) =>
      World(w.eng, Unref(ResolveCb(counted.isd, incl, status, pdu)))
  }

  /** `gatt_find_included`. */
  function Start(e: State<Data>, start: nat, end: nat): World {
    Ask(World(e, Isd(end, 0, 0, [], [], 0, 0, 0)), Find(start))
  }

  // ---------------------------------------------------------------- the procedure among other users

  predicate Completes(e: State<Data>, op: Op<Data>) {
    && op.DoReceive? && !e.stale && op.input.Pdu? && op.input.bytes != [] && IsResponse(op.input.bytes[0])
    && e.requests != [] && e.requests[0].data.Some?
  }

  predicate Decodable(c: Cmd<Data>, bytes: seq<byte>)
    requires bytes != []
  {
    c.live && c.data.Some? && c.data.value.Find? && Status(c, bytes) == 0 ==> Readable(bytes)
  }

  /** A command of ours popped and destroyed without its function, which was cancelled: only a find request
      has a destroy function that drops its reference. */
  function Forget(isd: Isd, q: Query): Isd {
    if q.Find? then Unref(isd) else isd
  }

  function Complete(w: World, bytes: seq<byte>): World
    requires Completes(w.eng, DoReceive(Pdu(bytes))) && Decodable(w.eng.requests[0], bytes)
  {
    var c := w.eng.requests[0];
    var popped := World(Receive(w.eng, Pdu(bytes)), w.isd);
    var z := if c.live then Served(popped, c.data.value, Status(c, bytes), bytes)
             else World(popped.eng, Forget(w.isd, c.data.value));
    World(if z.eng.current.Some? then EndReceive(z.eng) else z.eng, z.isd)
  }

  /** `disconnect_timeout` as our commands see it: each is run with an error, if it still has its function,
      and destroyed. */
  function Abort(isd: Isd, q: seq<Cmd<Data>>, status: byte): Isd
    requires status != 0
    decreases q
  {
    if q == [] then isd
    else
      var c := q[0];
      var next := if c.data.None? then isd
                  else if c.live then Unref(WithError(isd.(responses := isd.responses + 1), status))
                  else Forget(isd, c.data.value);
      Abort(next, q[1..], ECODE_ABORTED)
  }

  /** A read of a UUID that still has its function, the only thing that would drop its reference. */
  predicate LiveResolve(c: Cmd<Data>) {
    c.live && c.data.Some? && c.data.value.Resolve?
  }

  /** A command that loses its function by a cancellation. */
  function Silence(isd: Isd, c: Cmd<Data>): Isd {
    if LiveResolve(c) then isd.(leaked := isd.leaked + 1) else isd
  }

  /** A command that a cancellation destroys. */
  function Discard(isd: Isd, c: Cmd<Data>): Isd {
    if c.data.None? then isd else Forget(Silence(isd, c), c.data.value)
  }

  function DiscardAll(isd: Isd, q: seq<Cmd<Data>>): Isd
    decreases q
  {
    if q == [] then isd else DiscardAll(Discard(isd, q[0]), q[1..])
  }

  /** What `g_attrib_cancel` and `g_attrib_cancel_all` do to the commands of ours among the requests. */
  function CancelOne(isd: Isd, q: seq<Cmd<Data>>, id: nat): Isd {
    var i := IndexOf(q, id);
    if i == |q| then isd
    else if i == 0 && q[0].sent then Silence(isd, q[0])
    else Discard(isd, q[i])
  }

  function CancelOurs(isd: Isd, q: seq<Cmd<Data>>): Isd {
    if q != [] && q[0].sent then DiscardAll(Silence(isd, q[0]), q[1..]) else DiscardAll(isd, q)
  }

  /** Other users send commands of their own, and responses to ours can be decoded. */
  predicate WorldEnabled(w: World, op: Op<Data>) {
    && Enabled(w.eng, op)
    && (op.DoSend? ==> op.data == None)
    && (Completes(w.eng, op) ==> Decodable(w.eng.requests[0], op.input.bytes))
  }

  /** Any step of the engine, with what it does to our procedure. */
  function WorldStep(w: World, op: Op<Data>): World
    requires WorldEnabled(w, op)
  {
    if Completes(w.eng, op) then Complete(w, op.input.bytes)
    else
      World(Step(w.eng, op),
            match op
            case DoTimeout => Abort(w.isd, w.eng.requests, ECODE_TIMEOUT)
            case DoCancel(id) => CancelOne(w.isd, w.eng.requests, id)
            case DoCancelAll => CancelOurs(w.isd, w.eng.requests)
            case _ => w.isd)
  }

  /** An engine in any reachable state without commands of ours. */
  ghost predicate Ready(e: State<Data>) {
    && Inv(e) && Mine(e.requests) == [] && Mine(e.responses) == []
    && (e.current.Some? ==> e.current.value.data == None)
  }

  predicate IsStep(w: World, op: Op<Data>, w1: World) {
    WorldEnabled(w, op) && w1 == WorldStep(w, op)
  }

  ghost predicate AreSteps(worlds: seq<World>, ops: seq<Op<Data>>) {
    && |worlds| == |ops| + 1
    && forall i, j :: 0 <= i && j == i + 1 < |worlds| ==> IsStep(worlds[i], ops[i], worlds[j])
  }

  // ---------------------------------------------------------------- references

  /** A command of ours makes the request it stands for. */
  predicate OurCmd(c: Cmd<Data>, end: nat) {
    c.data.Some? ==> c.pdu == RequestOf(c.data.value, end)
  }

  /** A command with a way to drop its reference: the destroy function of a find request, or the result
      function of a read. */
  predicate Holds(c: Cmd<Data>) {
    c.data.Some? && (c.data.value.Find? || c.live)
  }

  function One(b: bool): nat {
    if b then 1 else 0
  }

  function Holders(q: seq<Cmd<Data>>): nat {
    if q == [] then 0 else One(Holds(q[0])) + Holders(q[1..])
  }

  lemma {:induction false} HoldersConcat(a: seq<Cmd<Data>>, b: seq<Cmd<Data>>)
    ensures Holders(a + b) == Holders(a) + Holders(b)
  {
    if a == [] {
      assert a + b == b;
    } else {
      HoldersConcat(a[1..], b);
      assert (a + b)[1..] == a[1..] + b && (a + b)[0] == a[0];
    }
  }

  lemma HoldersAdd(q: seq<Cmd<Data>>, c: Cmd<Data>)
    ensures Holders([c] + q) == Holders(q + [c]) == Holders(q) + One(Holds(c))
  {
    assert [c][1..] == [];
    HoldersConcat([c], q);
    HoldersConcat(q, [c]);
  }

  lemma HoldersHead(q: seq<Cmd<Data>>, c: Cmd<Data>)
    requires q != []
    ensures Holders(q) == One(Holds(q[0])) + Holders(q[1..])
    ensures Holders(q[0 := c]) == One(Holds(c)) + Holders(q[1..])
  {
    assert q[0 := c][1..] == q[1..];
  }

  lemma HoldersWithout(q: seq<Cmd<Data>>, k: nat)
    requires k < |q|
    ensures Holders(q) == Holders(Without(q, k)) + One(Holds(q[k]))
  {
    hide Holders, Holds;
    assert q == q[..k] + ([q[k]] + q[k + 1..]);
    HoldersConcat(q[..k], [q[k]] + q[k + 1..]);
    HoldersConcat(q[..k], q[k + 1..]);
    HoldersAdd(q[k + 1..], q[k]);
  }

  ghost predicate AllLive(q: seq<Cmd<Data>>) {
    forall i :: 0 <= i < |q| && q[i].data.Some? ==> q[i].live
  }

  lemma {:induction false} HoldersMine(q: seq<Cmd<Data>>)
    ensures Holders(q) <= |Mine(q)|
    ensures AllLive(q) ==> Holders(q) == |Mine(q)|
  {
    if q != [] {
      assert AllLive(q) ==> AllLive(q[1..]);
      HoldersMine(q[1..]);
    }
  }

  ghost predicate OurCmds(w: World) {
    && Mine(w.eng.responses) == [] && (w.eng.current.Some? ==> w.eng.current.value.data == None)
    && forall i :: 0 <= i < |w.eng.requests| ==> OurCmd(w.eng.requests[i], w.isd.end)
  }

  /** Every reference belongs to a command that will drop it, or has leaked; the user is called when the last
      one goes. */
  predicate Balanced(isd: Isd, holders: nat) {
    && isd.refs == holders + isd.leaked
    && isd.freed == |isd.calls| == One(isd.refs == 0)
  }

  ghost predicate Counted(w: World) {
    OurCmds(w) && Balanced(w.isd, Holders(w.eng.requests))
  }

  /** The same inside a result function, whose command still holds a reference. */
  ghost predicate Inside(w: World) {
    && Mine(w.eng.responses) == [] && !w.eng.stale
    && (forall i :: 0 <= i < |w.eng.requests| ==> OurCmd(w.eng.requests[i], w.isd.end))
    && Balanced(w.isd, Holders(w.eng.requests) + 1)
  }

  /** What a result function leaves alone. */
  ghost predicate After(w: World, z: World) {
    && z.eng.current == w.eng.current && z.isd.end == w.isd.end && z.isd.leaked == w.isd.leaked
    && (AllLive(w.eng.requests) ==> AllLive(z.eng.requests))
  }

  lemma AskInside(w: World, q: Query) returns (z: World)
    requires Inside(w)
    ensures z == Ask(w, q) && Inside(z) && After(w, z)
    ensures Mine(z.eng.requests) == Mine(w.eng.requests) + [q]
    ensures z.isd == w.isd.(refs := w.isd.refs + 1)
  {
    z := Ask(w, q);
    var c := z.eng.requests[|w.eng.requests|];
    assert z.eng.requests == w.eng.requests + [c];
    MineAdd(w.eng.requests, c);
    HoldersAdd(w.eng.requests, c);
  }

  /** What the entries of a list ask for, and what they give at once. */
  function Queries(es: seq<seq<byte>>): seq<Query>
    requires forall i :: 0 <= i < |es| ==> |es[i]| >= 6
  {
    if es == [] then [] else (if |es[0]| == 6 then [Resolve(FromEntry(es[0]))] else []) + Queries(es[1..])
  }

  function Known(es: seq<seq<byte>>): seq<Included>
    requires forall i :: 0 <= i < |es| ==> |es[i]| >= 6
  {
    if es == [] then [] else (if |es[0]| == 6 then [] else [FromEntry(es[0])]) + Known(es[1..])
  }

  lemma EntryInside(w: World, e: seq<byte>) returns (z: World)
    requires Inside(w) && |e| >= 6
    ensures z == TakeEntry(w, e) && Inside(z) && After(w, z)
    ensures Mine(z.eng.requests) == Mine(w.eng.requests) + if |e| == 6 then [Resolve(FromEntry(e))] else []
    ensures z.isd == w.isd.(refs := z.isd.refs, includes := w.isd.includes + if |e| == 6 then [] else [FromEntry(e)])
  {
    if |e| == 6 {
      z := AskInside(w, Resolve(FromEntry(e)));
      assert w.isd.includes + [] == w.isd.includes;
    } else {
      z := TakeEntry(w, e);
      assert Mine(w.eng.requests) + [] == Mine(w.eng.requests);
    }
  }

  lemma {:induction false} EntriesInside(w: World, es: seq<seq<byte>>) returns (z: World)
    requires Inside(w) && forall i :: 0 <= i < |es| ==> |es[i]| >= 6
    ensures z == TakeEntries(w, es) && Inside(z) && After(w, z)
    ensures Mine(z.eng.requests) == Mine(w.eng.requests) + Queries(es)
    ensures z.isd == w.isd.(refs := z.isd.refs, includes := w.isd.includes + Known(es))
    decreases es
  {
    if es == [] {
      z := w;
      assert Mine(w.eng.requests) + [] == Mine(w.eng.requests) && w.isd.includes + [] == w.isd.includes;
    } else {
      var one := EntryInside(w, es[0]);
      z := EntriesInside(one, es[1..]);
      Assoc(Mine(w.eng.requests), if |es[0]| == 6 then [Resolve(FromEntry(es[0]))] else [], Queries(es[1..]));
      Assoc(w.isd.includes, if |es[0]| == 6 then [] else [FromEntry(es[0])], Known(es[1..]));
    }
  }

  lemma ListInside(w: World, es: seq<seq<byte>>) returns (z: World)
    requires Inside(w) && forall i :: 0 <= i < |es| ==> |es[i]| >= 6
    ensures z == TakeList(w, es) && Inside(z) && After(w, z)
    ensures var last := if es == [] then w.isd.end else FromLE16(es[|es| - 1]);
            Mine(z.eng.requests) ==
            Mine(w.eng.requests) + Queries(es) + if last < w.isd.end then [Find(last + 1)] else []
    ensures z.isd == w.isd.(refs := z.isd.refs, includes := w.isd.includes + Known(es))
  {
    hide TakeEntries, Ask, Queries, Known, Inside;
    var taken := EntriesInside(w, es);
    var last := if es == [] then w.isd.end else FromLE16(es[|es| - 1]);
    if last < w.isd.end {
      z := AskInside(taken, Find(last + 1));
    } else {
      z := taken;
      assert Mine(w.eng.requests) + Queries(es) + [] == Mine(w.eng.requests) + Queries(es);
    }
  }

  lemma FindInside(w: World, status: byte, pdu: seq<byte>) returns (z: World)
    requires Inside(w) && (status == 0 ==> Readable(pdu))
    ensures z == FindCb(w, status, pdu) && Inside(z) && After(w, z)
  {
    z := FindCb(w, status, pdu);
    if status == 0 && DecList(OP_READ_BY_TYPE_RESP, pdu).Some? {
      var list := DecList(OP_READ_BY_TYPE_RESP, pdu).value;
      if list.len == 6 || list.len == 8 {
        z := ListInside(w, list.data);
      }
    }
  }

  lemma ServedCounts(w: World, q: Query, status: byte, pdu: seq<byte>) returns (z: World)
    requires Inside(w) && (status == 0 && q.Find? ==> Readable(pdu))
    ensures z == Served(w, q, status, pdu) && After(w, z)
    ensures Counted(World(z.eng.(current := None), z.isd))
  {
    hide FindCb, ResolveCb;
    var counted := w.(isd := w.isd.(responses := w.isd.responses + 1));
    if q.Find? {
      var found := FindInside(counted, status, pdu);
      z := World(found.eng, Unref(found.isd));
    } else {
      ResolveKeeps(counted.isd, q.incl, status, pdu);
      z := World(w.eng, Unref(ResolveCb(counted.isd, q.incl, status, pdu)));
    }
  }

  lemma ResolveKeeps(isd: Isd, incl: Included, status: byte, pdu: seq<byte>)
    ensures var z := ResolveCb(isd, incl, status, pdu); z == isd.(err := z.err, includes := z.includes)
  {
  }

  lemma PopOurs(w: World, bytes: seq<byte>) returns (popped: World)
    requires Counted(w) && WorldEnabled(w, DoReceive(Pdu(bytes))) && Completes(w.eng, DoReceive(Pdu(bytes)))
    ensures popped == World(Receive(w.eng, Pdu(bytes)), w.isd) && popped.eng.current == Some(w.eng.requests[0])
    ensures OurCmds(World(popped.eng.(current := None), w.isd)) && OurCmd(w.eng.requests[0], w.isd.end)
    ensures w.eng.requests[0].live ==> Inside(popped)
    ensures Holders(w.eng.requests) == One(Holds(w.eng.requests[0])) + Holders(popped.eng.requests)
    ensures Mine(w.eng.requests) == [w.eng.requests[0].data.value] + Mine(popped.eng.requests)
    ensures AllLive(w.eng.requests) ==> AllLive(popped.eng.requests)
  {
    popped := World(Receive(w.eng, Pdu(bytes)), w.isd);
    MineAdd(w.eng.requests[1..], w.eng.requests[0]);
    assert w.eng.requests == [w.eng.requests[0]] + w.eng.requests[1..];
  }

  lemma ForgetCounts(isd: Isd, q: Query, holders: nat)
    requires Balanced(isd, One(q.Find?) + holders)
    ensures Balanced(Forget(isd, q), holders)
  {
  }

  lemma CompleteCounts(w: World, bytes: seq<byte>) returns (w1: World)
    requires Counted(w) && WorldEnabled(w, DoReceive(Pdu(bytes))) && Completes(w.eng, DoReceive(Pdu(bytes)))
    ensures w1 == Complete(w, bytes) && Counted(w1)
    ensures w1.isd.end == w.isd.end && w1.isd.leaked == w.isd.leaked
  {
    var c := w.eng.requests[0];
    var popped := PopOurs(w, bytes);
    if c.live {
      var z := ServedCounts(popped, c.data.value, Status(c, bytes), bytes);
      w1 := World(EndReceive(z.eng), z.isd);
    } else {
      ForgetCounts(w.isd, c.data.value, Holders(popped.eng.requests));
      w1 := World(EndReceive(popped.eng), Forget(w.isd, c.data.value));
    }
  }

  // ---------------------------------------------------------------- steps of other users

  /** What a step leaves as it was that is not about a command of ours. */
  ghost predicate Untouched(w: World, e: State<Data>) {
    && OurCmds(World(e, w.isd)) && Mine(e.requests) == Mine(w.eng.requests)
    && Holders(e.requests) == Holders(w.eng.requests)
    && (AllLive(w.eng.requests) ==> AllLive(e.requests))
  }

  lemma SendUntouched(w: World, id: nat, pdu: seq<byte>, live: bool)
    requires OurCmds(w) && pdu != []
    ensures Untouched(w, Send(w.eng, id, pdu, live, None).0)
  {
    if !w.eng.stale {
      SentUntouched(w, id, pdu, live);
    }
  }

  lemma SentUntouched(w: World, id: nat, pdu: seq<byte>, live: bool)
    requires OurCmds(w) && pdu != [] && !w.eng.stale
    ensures Untouched(w, Send(w.eng, id, pdu, live, None).0)
  {
    hide Send, IsResponse;
    var e1, c := OthersSend(w.eng, id, pdu, live);
    HoldersAdd(w.eng.requests, c);
  }

  /** The head of the queue written: marked as sent, or gone if it is not ours. */
  lemma HeadUntouched(w: World, e1: State<Data>)
    requires OurCmds(w) && w.eng.requests != [] && e1.responses == w.eng.responses && e1.current == w.eng.current
    requires e1.requests == w.eng.requests[0 := w.eng.requests[0].(sent := true)]
             || (w.eng.requests[0].data.None? && e1.requests == w.eng.requests[1..])
    ensures Untouched(w, e1)
  {
    var q, c := w.eng.requests, w.eng.requests[0];
    MineUpdate(q, c.(sent := true));
    HoldersHead(q, c.(sent := true));
    MineAdd(q[1..], c);
    assert q == [c] + q[1..];
  }

  lemma WriteUntouched(w: World, hup: bool, ok: bool)
    requires OurCmds(w) && OneSent(w.eng)
    ensures Untouched(w, Write(w.eng, hup, ok))
  {
    var e, e1 := w.eng, Write(w.eng, hup, ok);
    MineNone(e.responses);
    MineNone(e1.responses);
    if e.responses == [] && e.requests != [] && !hup && ok && !e.requests[0].sent && !e.stale {
      WriteHead(w);
    } else {
      assert e1.requests == e.requests;
    }
  }

  lemma WriteHead(w: World)
    requires OurCmds(w) && w.eng.responses == [] && w.eng.requests != []
    requires !w.eng.requests[0].sent && !w.eng.stale
    ensures Untouched(w, Write(w.eng, false, true))
  {
    hide Write, Untouched;
    assert OurCmd(w.eng.requests[0], w.isd.end);
    var e1 := WriteShape(w.eng);
    HeadUntouched(w, e1);
  }

  lemma ReceiveUntouched(w: World, input: Input)
    requires OurCmds(w) && Enabled(w.eng, DoReceive(input)) && !Completes(w.eng, DoReceive(input))
    ensures Untouched(w, Receive(w.eng, input))
  {
    hide Receive, IsResponse;
    var e1 := OthersReceive(w.eng, input);
    if w.eng.requests != [] {
      HoldersHead(w.eng.requests, w.eng.requests[0]);
    }
  }

  lemma OthersUntouched(w: World, op: Op<Data>)
    requires OurCmds(w) && OneSent(w.eng) && WorldEnabled(w, op) && !Completes(w.eng, op)
    requires !op.DoTimeout? && !op.DoCancel? && !op.DoCancelAll?
    ensures Untouched(w, Step(w.eng, op))
  {
    match op
    case DoSend(id, pdu, live, data) => SendUntouched(w, id, pdu, live);
    case DoWrite(hup, ok) => WriteUntouched(w, hup, ok);
    case DoReceive(input) => ReceiveUntouched(w, input);
    case DoEndReceive =>
  }

  // ---------------------------------------------------------------- cancellation and timeout

  lemma SilenceCounts(isd: Isd, c: Cmd<Data>, rest: nat)
    requires Balanced(isd, One(Holds(c)) + rest)
    ensures Balanced(Silence(isd, c), One(Holds(c.(live := false))) + rest)
    ensures Silence(isd, c).leaked == isd.leaked + One(LiveResolve(c)) && Silence(isd, c).end == isd.end
  {
  }

  lemma DiscardCounts(isd: Isd, c: Cmd<Data>, rest: nat)
    requires Balanced(isd, One(Holds(c)) + rest)
    ensures Balanced(Discard(isd, c), rest)
    ensures Discard(isd, c).leaked == isd.leaked + One(LiveResolve(c)) && Discard(isd, c).end == isd.end
  {
  }

  ghost predicate SomeLiveResolve(q: seq<Cmd<Data>>) {
    exists i :: 0 <= i < |q| && LiveResolve(q[i])
  }

  lemma SomeHead(q: seq<Cmd<Data>>)
    requires q != []
    ensures SomeLiveResolve(q) <==> LiveResolve(q[0]) || SomeLiveResolve(q[1..])
  {
    if SomeLiveResolve(q) && !LiveResolve(q[0]) {
      var i :| 0 <= i < |q| && LiveResolve(q[i]);
      assert q[1..][i - 1] == q[i];
    }
    if SomeLiveResolve(q[1..]) {
      var i :| 0 <= i < |q[1..]| && LiveResolve(q[1..][i]);
      assert q[i + 1] == q[1..][i];
    }
  }

  lemma {:induction false} DiscardAllCounts(isd: Isd, q: seq<Cmd<Data>>, rest: nat)
    requires Balanced(isd, Holders(q) + rest)
    ensures var z := DiscardAll(isd, q);
            && Balanced(z, rest) && z.end == isd.end && z.leaked >= isd.leaked
            && (z.leaked > isd.leaked <==> SomeLiveResolve(q))
    decreases q
  {
    if q != [] {
      DiscardCounts(isd, q[0], Holders(q[1..]) + rest);
      DiscardAllCounts(Discard(isd, q[0]), q[1..], rest);
      SomeHead(q);
    }
  }

  /** A step that cancels reads of UUIDs. */
  ghost predicate Leaks(w: World, op: Op<Data>) {
    match op
    case DoCancel(id) =>
      var i := IndexOf(w.eng.requests, id);
      i < |w.eng.requests| && LiveResolve(w.eng.requests[i])
    case DoCancelAll => SomeLiveResolve(w.eng.requests)
    case _ => false
  }

  /** The head that is on its way only loses its function. */
  lemma SilencedCounts(w: World) returns (w1: World)
    requires Counted(w) && w.eng.requests != []
    ensures var c := w.eng.requests[0];
            && w1.isd == Silence(w.isd, c) && w1.isd.end == w.isd.end
            && w1.isd.leaked == w.isd.leaked + One(LiveResolve(c))
            && w1.eng == w.eng.(requests := w.eng.requests[0 := c.(live := false)],
                                log := w.eng.log + [Silenced(c.uid)])
    ensures Counted(w1)
  {
    hide Balanced, Holds, Silence, RequestOf;
    var q, c := w.eng.requests, w.eng.requests[0];
    w1 := World(w.eng.(requests := q[0 := c.(live := false)], log := w.eng.log + [Silenced(c.uid)]), Silence(w.isd, c));
    HoldersHead(q, c.(live := false));
    SilenceCounts(w.isd, c, Holders(q[1..]));
    assert OurCmd(c, w.isd.end);
  }

  lemma DiscardedCounts(w: World, i: nat) returns (w1: World)
    requires Counted(w) && i < |w.eng.requests|
    ensures var c := w.eng.requests[i];
            && w1.isd == Discard(w.isd, c) && w1.isd.end == w.isd.end
            && w1.isd.leaked == w.isd.leaked + One(LiveResolve(c))
            && w1.eng == w.eng.(requests := Without(w.eng.requests, i), log := w.eng.log + [Destroyed(c.uid)])
    ensures Counted(w1)
  {
    hide Balanced, Holds, Discard, RequestOf;
    var q, c := w.eng.requests, w.eng.requests[i];
    w1 := World(w.eng.(requests := Without(q, i), log := w.eng.log + [Destroyed(c.uid)]), Discard(w.isd, c));
    HoldersWithout(q, i);
    DiscardCounts(w.isd, c, Holders(Without(q, i)));
  }

  lemma CancelRequestCounts(w: World, id: nat, i: nat) returns (w1: World)
    requires Counted(w) && i == IndexOf(w.eng.requests, id) < |w.eng.requests|
    ensures w1 == World(Cancel(w.eng, id).0, CancelOne(w.isd, w.eng.requests, id))
    ensures Counted(w1) && w1.isd.end == w.isd.end
    ensures w1.isd.leaked == w.isd.leaked + One(LiveResolve(w.eng.requests[i]))
  {
    hide Counted, IndexOf, Without, Silence, Discard;
    if i == 0 && w.eng.requests[0].sent {
      w1 := SilencedCounts(w);
    } else {
      w1 := DiscardedCounts(w, i);
    }
  }

  lemma CancelResponseUntouched(w: World, id: nat)
    requires OurCmds(w) && IndexOf(w.eng.requests, id) == |w.eng.requests|
    ensures OurCmds(World(Cancel(w.eng, id).0, w.isd)) && Cancel(w.eng, id).0.requests == w.eng.requests
  {
    var q, q1 := w.eng.responses, Cancel(w.eng, id).0.responses;
    var j := IndexOf(q, id);
    MineNone(q);
    if j < |q| && !(j == 0 && q[0].sent) {
      MineWithout(q, j);
    } else if j == 0 && q != [] {
      MineUpdate(q, q[0].(live := false));
    } else {
      assert q1 == q;
    }
  }

  lemma CancelCounts(w: World, id: nat) returns (w1: World)
    requires Counted(w) && WorldEnabled(w, DoCancel(id))
    ensures w1 == WorldStep(w, DoCancel(id)) && Counted(w1) && w1.isd.end == w.isd.end
    ensures w1.isd.leaked == w.isd.leaked + One(Leaks(w, DoCancel(id)))
  {
    var i := IndexOf(w.eng.requests, id);
    if i < |w.eng.requests| {
      w1 := CancelRequestCounts(w, id, i);
    } else {
      CancelResponseUntouched(w, id);
      w1 := World(Cancel(w.eng, id).0, w.isd);
    }
  }

  lemma CancelAllCounts(w: World) returns (w1: World)
    requires Counted(w) && WorldEnabled(w, DoCancelAll)
    ensures w1 == WorldStep(w, DoCancelAll) && Counted(w1) && w1.isd.end == w.isd.end
    ensures w1.isd.leaked >= w.isd.leaked && (w1.isd.leaked > w.isd.leaked <==> Leaks(w, DoCancelAll))
  {
    var q, e1 := w.eng.requests, CancelAll(w.eng);
    CancelQueueMine(w.eng.responses);
    if w.eng.responses != [] {
      MineNone(w.eng.responses);
      MineOne(w.eng.responses[0]);
    }
    if q != [] && q[0].sent {
      var c := q[0].(live := false);
      SilenceCounts(w.isd, q[0], Holders(q[1..]));
      DiscardAllCounts(Silence(w.isd, q[0]), q[1..], One(Holds(c)));
      HoldersAdd([], c);
      SomeHead(q);
      assert [] + [c] == [c] && OurCmd(q[0], w.isd.end);
    } else {
      DiscardAllCounts(w.isd, q, 0);
    }
    w1 := World(e1, CancelOurs(w.isd, q));
  }

  /** The timeout runs every command of ours that still has its function with an error, and destroys all. */
  lemma {:induction false} AbortCounts(isd: Isd, q: seq<Cmd<Data>>, status: byte)
    requires status != 0 && Balanced(isd, Holders(q))
    ensures var z := Abort(isd, q, status);
            && Balanced(z, 0) && z.end == isd.end && z.leaked == isd.leaked
            && (Mine(q) == [] ==> z == isd)
            && (AllLive(q) && Mine(q) != [] && isd.leaked == 0 ==> z.calls[0].err != 0 && z.calls[0].list == None)
    decreases q
  {
    if q != [] {
      var c := q[0];
      MineHead(q);
      MineOne(c);
      assert AllLive(q) ==> AllLive(q[1..]);
      if c.data.None? {
        AbortCounts(isd, q[1..], ECODE_ABORTED);
      } else if c.live {
        AbortCounts(Unref(WithError(isd.(responses := isd.responses + 1), status)), q[1..], ECODE_ABORTED);
      } else {
        ForgetCounts(isd, c.data.value, Holders(q[1..]));
        AbortCounts(Forget(isd, c.data.value), q[1..], ECODE_ABORTED);
      }
    }
  }

  lemma TimeoutCounts(w: World) returns (w1: World)
    requires Counted(w) && WorldEnabled(w, DoTimeout)
    ensures w1 == WorldStep(w, DoTimeout) && Counted(w1)
    ensures w1.isd.end == w.isd.end && w1.isd.leaked == w.isd.leaked
  {
    AbortCounts(w.isd, w.eng.requests, ECODE_TIMEOUT);
    w1 := World(Timeout(w.eng), Abort(w.isd, w.eng.requests, ECODE_TIMEOUT));
  }

  /** Every step, cancellations and timeouts included, keeps the references in balance, and references leak
      exactly in steps that cancel reads of UUIDs. */
  lemma WorldStepCounts(w: World, op: Op<Data>) returns (w1: World)
    requires Counted(w) && OneSent(w.eng) && WorldEnabled(w, op)
    ensures w1 == WorldStep(w, op) && Counted(w1) && w1.isd.end == w.isd.end
    ensures w1.isd.leaked >= w.isd.leaked && (w1.isd.leaked > w.isd.leaked <==> Leaks(w, op))
  {
    if Completes(w.eng, op) {
      w1 := CompleteCounts(w, op.input.bytes);
    } else {
      match op
      case DoTimeout => w1 := TimeoutCounts(w);
      case DoCancel(id) => w1 := CancelCounts(w, id);
      case DoCancelAll => w1 := CancelAllCounts(w);
      case _ =>
        OthersUntouched(w, op);
        w1 := World(Step(w.eng, op), w.isd);
    }
  }

  // ---------------------------------------------------------------- the engine's own invariant

  lemma AskInv(w: World, q: Query) returns (z: World)
    requires Inv(w.eng)
    ensures z == Ask(w, q) && Inv(z.eng) && z.eng.current == w.eng.current
  {
    SendInv(w.eng, 0, RequestOf(q, w.isd.end), true, Some(q));
    z := Ask(w, q);
  }

  lemma {:induction false} EntriesInv(w: World, es: seq<seq<byte>>) returns (z: World)
    requires Inv(w.eng) && forall i :: 0 <= i < |es| ==> |es[i]| >= 6
    ensures z == TakeEntries(w, es) && Inv(z.eng) && z.eng.current == w.eng.current
    decreases es
  {
    z := w;
    if es != [] {
      if |es[0]| == 6 {
        z := AskInv(w, Resolve(FromEntry(es[0])));
      } else {
        z := TakeEntry(w, es[0]);
      }
      z := EntriesInv(z, es[1..]);
    }
  }

  lemma ListInv(w: World, es: seq<seq<byte>>) returns (z: World)
    requires Inv(w.eng) && forall i :: 0 <= i < |es| ==> |es[i]| >= 6
    ensures z == TakeList(w, es) && Inv(z.eng) && z.eng.current == w.eng.current
  {
    hide TakeEntries, Ask, Inv;
    z := EntriesInv(w, es);
    var last := if es == [] then w.isd.end else FromLE16(es[|es| - 1]);
    if last < w.isd.end {
      z := AskInv(z, Find(last + 1));
    }
  }

  lemma FindInv(w: World, status: byte, pdu: seq<byte>) returns (z: World)
    requires Inv(w.eng) && (status == 0 ==> Readable(pdu))
    ensures z == FindCb(w, status, pdu) && Inv(z.eng) && z.eng.current == w.eng.current
  {
    z := FindCb(w, status, pdu);
    if status == 0 && DecList(OP_READ_BY_TYPE_RESP, pdu).Some? {
      var list := DecList(OP_READ_BY_TYPE_RESP, pdu).value;
      if list.len == 6 || list.len == 8 {
        z := ListInv(w, list.data);
      }
    }
  }

  lemma ServedInv(w: World, q: Query, status: byte, pdu: seq<byte>) returns (z: World)
    requires Inv(w.eng) && (status == 0 && q.Find? ==> Readable(pdu))
    ensures z == Served(w, q, status, pdu) && Inv(z.eng) && z.eng.current == w.eng.current
  {
    var counted := w.(isd := w.isd.(responses := w.isd.responses + 1));
    if q.Find? {
      var found := FindInv(counted, status, pdu);
      z := World(found.eng, Unref(found.isd));
    } else {
      z := Served(w, q, status, pdu);
    }
  }

  lemma CompleteInv(w: World, bytes: seq<byte>) returns (z: World)
    requires Inv(w.eng) && Enabled(w.eng, DoReceive(Pdu(bytes))) && Completes(w.eng, DoReceive(Pdu(bytes)))
    requires Decodable(w.eng.requests[0], bytes)
    ensures z == Complete(w, bytes) && Inv(z.eng)
  {
    var c := w.eng.requests[0];
    ReceiveInv(w.eng, Pdu(bytes));
    var popped := World(Receive(w.eng, Pdu(bytes)), w.isd);
    var served := World(popped.eng, Forget(w.isd, c.data.value));
    if c.live {
      served := ServedInv(popped, c.data.value, Status(c, bytes), bytes);
    }
    EndReceiveInv(served.eng);
    z := World(EndReceive(served.eng), served.isd);
  }

  lemma StartShape(e: State<Data>, start: nat, end: nat) returns (c: Cmd<Data>)
    requires !e.stale
    ensures var w := Start(e, start, end);
            && w.eng.requests == e.requests + [c] && w.eng.responses == e.responses && w.eng.current == e.current
            && w.isd == Isd(end, 1, 0, [], [], 0, 0, 0) && !w.eng.stale
    ensures c.data == Some(Find(start)) && c.live && c.pdu == RequestOf(Find(start), end)
  {
    c := Start(e, start, end).eng.requests[|e.requests|];
  }

  lemma StartCounts(e: State<Data>, start: nat, end: nat) returns (w: World)
    requires Ready(e)
    ensures w == Start(e, start, end) && Inv(w.eng) && Counted(w) && w.isd.end == end
    ensures w.isd.leaked == One(e.stale) && w.eng.stale == e.stale
    ensures Mine(w.eng.requests) == if e.stale then [] else [Find(start)]
    ensures !e.stale ==> AllLive(w.eng.requests)
  {
    hide Inv;
    w := AskInv(World(e, Isd(end, 0, 0, [], [], 0, 0, 0)), Find(start));
    MineNone(e.requests);
    HoldersMine(e.requests);
    if !e.stale {
      var c := StartShape(e, start, end);
      MineAdd(e.requests, c);
      HoldersAdd(e.requests, c);
      assert [] + [Find(start)] == [Find(start)];
    } else {
      assert w.eng == e;
    }
  }

  ghost predicate Kept(w: World, end: nat) {
    Inv(w.eng) && Counted(w) && w.isd.end == end
  }

  lemma StepKept(w: World, op: Op<Data>, end: nat) returns (w1: World)
    requires Kept(w, end) && WorldEnabled(w, op)
    ensures w1 == WorldStep(w, op) && Kept(w1, end)
    ensures w1.isd.leaked >= w.isd.leaked && (w1.isd.leaked > w.isd.leaked <==> Leaks(w, op))
  {
    w1 := WorldStepCounts(w, op);
    if Completes(w.eng, op) {
      var z := CompleteInv(w, op.input.bytes);
    } else {
      StepInv(w.eng, op);
    }
  }

  /** Some read of a UUID was cancelled in the first `n` steps. */
  ghost predicate Leaked(worlds: seq<World>, ops: seq<Op<Data>>, n: nat)
    requires n <= |ops| < |worlds|
  {
    exists k :: 0 <= k < n && Leaks(worlds[k], ops[k])
  }

  lemma {:induction false} StepsKept(worlds: seq<World>, ops: seq<Op<Data>>, end: nat, i: nat)
    requires AreSteps(worlds, ops) && i < |worlds| && Kept(worlds[0], end)
    ensures Kept(worlds[i], end) && worlds[i].isd.leaked >= worlds[0].isd.leaked
    ensures worlds[i].isd.leaked > worlds[0].isd.leaked <==> Leaked(worlds, ops, i)
  {
    hide WorldStep, WorldEnabled, Kept, Leaks;
    if i > 0 {
      StepsKept(worlds, ops, end, i - 1);
      assert IsStep(worlds[i - 1], ops[i - 1], worlds[i]);
      var next := StepKept(worlds[i - 1], ops[i - 1], end);
      LeakedStep(worlds, ops, i);
    }
  }

  lemma LeakedStep(worlds: seq<World>, ops: seq<Op<Data>>, i: nat)
    requires 0 < i <= |ops| < |worlds|
    ensures Leaked(worlds, ops, i) <==> Leaked(worlds, ops, i - 1) || Leaks(worlds[i - 1], ops[i - 1])
  {
  }

  /** A run from the start of the procedure on the engine `e` in any reachable state. */
  ghost predicate IsIncludeRun(worlds: seq<World>, ops: seq<Op<Data>>, e: State<Data>, start: nat, end: nat) {
    AreSteps(worlds, ops) && Ready(e) && worlds[0] == Start(e, start, end)
  }

  lemma RunCounts(worlds: seq<World>, ops: seq<Op<Data>>, e: State<Data>, start: nat, end: nat, i: nat)
    requires IsIncludeRun(worlds, ops, e, start, end) && i < |worlds|
    ensures Inv(worlds[i].eng) && Counted(worlds[i]) && worlds[i].isd.end == end
    ensures worlds[i].isd.leaked == 0 <==> !e.stale && !Leaked(worlds, ops, i)
  {
    var w := StartCounts(e, start, end);
    StepsKept(worlds, ops, end, i);
  }

  /** In every state of every run, whatever the peer answers, whoever cancels what and also when the timeout
      aborts the queue: the user is called exactly once, when the last reference goes and not before, and
      every reference belongs to a queued command that will drop it - if and only if the engine was not stale
      at the start and no read of a UUID has been cancelled.  Otherwise some reference is never dropped. */
  lemma CalledOnceAtZero(worlds: seq<World>, ops: seq<Op<Data>>, e: State<Data>, start: nat, end: nat, i: nat)
    requires IsIncludeRun(worlds, ops, e, start, end) && i < |worlds|
    ensures var w := worlds[i];
            && |w.isd.calls| == w.isd.freed == (if w.isd.refs == 0 then 1 else 0)
            && (w.isd.refs == Holders(w.eng.requests) <==> !e.stale && !Leaked(worlds, ops, i))
            && (Mine(w.eng.requests) == [] ==> (|w.isd.calls| == 1 <==> !e.stale && !Leaked(worlds, ops, i)))
            && Mine(w.eng.responses) == []
  {
    RunCounts(worlds, ops, e, start, end, i);
    HoldersMine(worlds[i].eng.requests);
  }

  /** `attrib_destroy`. */
  function DestroyWorld(w: World): World {
    World(Destroy(w.eng), DiscardAll(DiscardAll(w.isd, w.eng.requests), w.eng.responses))
  }

  lemma {:induction false} DiscardNone(isd: Isd, q: seq<Cmd<Data>>)
    requires Mine(q) == []
    ensures DiscardAll(isd, q) == isd
    decreases q
  {
    if q != [] {
      DiscardNone(isd, q[1..]);
    }
  }

  /** Were the engine destroyed in any state of a run, the user would have been called exactly once if and only if
      no reference had leaked and no UUID was being read.  It is not while the procedure holds its own reference
      on the engine, see `EngineOutlives`. */
  lemma DestroyEnds(worlds: seq<World>, ops: seq<Op<Data>>, e: State<Data>, start: nat, end: nat, i: nat)
    requires IsIncludeRun(worlds, ops, e, start, end) && i < |worlds|
    ensures var w, z := worlds[i], DestroyWorld(worlds[i]);
            && z.eng.requests == [] && z.eng.responses == []
            && |z.isd.calls| == z.isd.freed <= 1
            && (|z.isd.calls| == 1 <==> !e.stale && !Leaked(worlds, ops, i) && !SomeLiveResolve(w.eng.requests))
  {
    RunCounts(worlds, ops, e, start, end, i);
    var w := worlds[i];
    DiscardAllCounts(w.isd, w.eng.requests, 0);
    DiscardNone(DiscardAll(w.isd, w.eng.requests), w.eng.responses);
  }

  /** The references on the engine: those of others, its own write watch among them, and the one that the
      procedure takes at its start and drops when its state is freed. */
  function EngineRefs(others: nat, isd: Isd): nat {
    others + One(isd.freed == 0)
  }

  lemma {:induction false} DiscardNoHolders(isd: Isd, q: seq<Cmd<Data>>)
    requires Holders(q) == 0
    ensures DiscardAll(isd, q) == isd
    decreases q
  {
    if q != [] {
      DiscardNoHolders(isd, q[1..]);
    }
  }

  /** The procedure keeps the engine alive until its last reference goes: when nobody else has one either, the
      user has been called, and destroying the engine changes nothing for the procedure.  A reference that has
      leaked therefore keeps the engine for good. */
  lemma EngineOutlives(worlds: seq<World>, ops: seq<Op<Data>>, e: State<Data>, start: nat, end: nat, i: nat,
                       others: nat)
    requires IsIncludeRun(worlds, ops, e, start, end) && i < |worlds|
    ensures var w := worlds[i];
            && (EngineRefs(others, w.isd) == 0 <==> others == 0 && w.isd.refs == 0)
            && (EngineRefs(others, w.isd) == 0 ==> |w.isd.calls| == 1 && DestroyWorld(w).isd == w.isd)
            && (e.stale || Leaked(worlds, ops, i) ==> EngineRefs(others, w.isd) > 0)
  {
    hide Leaked;
    RunCounts(worlds, ops, e, start, end, i);
    var w := worlds[i];
    DiscardNone(w.isd, w.eng.responses);
    if w.isd.refs == 0 {
      DiscardNoHolders(w.isd, w.eng.requests);
    }
  }

  lemma StaleStays(w: World, op: Op<Data>)
    requires Inv(w.eng) && w.eng.stale && WorldEnabled(w, op)
    ensures WorldStep(w, op).eng.stale && WorldStep(w, op).isd == w.isd
  {
    assert w.eng.requests == [];
  }

  /** A start that a stale engine refuses keeps its reference for good: in every state of every run the state is
      not freed and the user has not been called. */
  lemma {:induction false} RefusedStartLeaks(worlds: seq<World>, ops: seq<Op<Data>>, e: State<Data>, start: nat,
                                             end: nat, i: nat)
    requires IsIncludeRun(worlds, ops, e, start, end) && i < |worlds| && e.stale
    ensures worlds[i].eng.stale && worlds[i].isd.refs == 1
    ensures worlds[i].isd.freed == 0 && worlds[i].isd.calls == []
  {
    hide WorldStep, WorldEnabled, Inv, Counted, Leaked;
    if i > 0 {
      RefusedStartLeaks(worlds, ops, e, start, end, i - 1);
      RunCounts(worlds, ops, e, start, end, i - 1);
      assert IsStep(worlds[i - 1], ops[i - 1], worlds[i]);
      StaleStays(worlds[i - 1], ops[i - 1]);
    }
  }

  // ---------------------------------------------------------------- the procedure as the source has it

  /** `struct included_discovery`, updated in place by the callbacks. */
  class DiscoverIncluded {
    const end: nat
    var refs: int
    var err: byte
    var includes: seq<Included>
    var calls: seq<Result>
    ghost var freed: nat
    ghost var responses: nat
    ghost var leaked: nat

    ghost function View(): Isd
      reads this
    {
      Isd(end, refs, err, includes, calls, freed, responses, leaked)
    }

    /** `isd_unref`. */
    method IsdUnref()
      modifies this
      ensures View() == Unref(old(View()))
    {
      refs := refs - 1;
      if refs > 0 {
        return;
      }
      if err != 0 {
        calls := calls + [Result(err, None)];
      } else {
        calls := calls + [Result(err, Some(includes))];
      }
      freed := freed + 1;
    }

    /** `isd_ref` and the send of `find_included` and `resolve_included_uuid`. */
    method Request(attrib: Attrib<Data>, q: Query)
      modifies attrib, `refs, `leaked
      ensures fresh(attrib.Commands() - old(attrib.Commands()))
      ensures World(attrib.View(), View()) == Ask(World(old(attrib.View()), old(View())), q)
    {
      hide Send, RequestOf;
      refs := refs + 1;
      leaked := if attrib.stale then leaked + 1 else leaked;
      var id := attrib.Submit(0, RequestOf(q, end), true, Some(q));
    }

    /** The allocation in `gatt_find_included`. */
    constructor (end: nat)
      ensures View() == Isd(end, 0, 0, [], [], 0, 0, 0)
    {
      this.end := end;
      refs, err, includes, calls, freed, responses, leaked := 0, 0, [], [], 0, 0, 0;
    }

    /** The rest of `gatt_find_included`. */
    method FindIncluded(attrib: Attrib<Data>, start: nat)
      requires attrib.Valid() && View() == Isd(end, 0, 0, [], [], 0, 0, 0)
      modifies attrib, `refs, `leaked
      ensures attrib.Valid() && fresh(attrib.Commands() - old(attrib.Commands()))
      ensures World(attrib.View(), View()) == Start(old(attrib.View()), start, end)
    {
      ghost var next := AskInv(World(attrib.View(), View()), Find(start));
      Request(attrib, Find(start));
      assert World(attrib.View(), View()) == next;
    }

    method Fail(e: byte)
      modifies `err
      ensures View() == WithError(old(View()), e)
    {
      if err == 0 {
        err := e;
      }
    }

    /** `resolve_included_uuid_cb`. */
    method ResolveIncludedUuidCb(incl: Included, status: byte, pdu: seq<byte>)
      modifies this
      ensures View() == Unref(ResolveCb(old(View()).(responses := old(responses) + 1), incl, status, pdu))
    {
      responses := responses + 1;
      if status != 0 {
        Fail(status);
      } else if |pdu| != 17 || pdu[0] != OP_READ_RESP {
        Fail(ECODE_IO);
      } else {
        includes := includes + [incl.(wide := pdu[1..])];
      }
      IsdUnref();
    }

    /** The loop of `find_included_cb` over the decoded list; `last` is its `last_handle`. */
    method TakeAll(attrib: Attrib<Data>, data: seq<seq<byte>>) returns (last: nat)
      requires forall i :: 0 <= i < |data| ==> |data[i]| >= 6
      modifies attrib, `refs, `leaked, `includes
      ensures fresh(attrib.Commands() - old(attrib.Commands()))
      ensures World(attrib.View(), View()) == TakeEntries(World(old(attrib.View()), old(View())), data)
      ensures last == if data == [] then end else FromLE16(data[|data| - 1])
    {
      hide Ask, FromEntry, FromLE16;
      last := end;
      ghost var whole := TakeEntries(World(attrib.View(), View()), data);
      assert data[0..] == data;
      for i := 0 to |data|
        invariant fresh(attrib.Commands() - old(attrib.Commands()))
        invariant TakeEntries(World(attrib.View(), View()), data[i..]) == whole
        invariant last == if i == 0 then end else FromLE16(data[i - 1])
      {
        last := TakeOne(attrib, data, i);
      }
      assert data[|data|..] == [];
    }

    method TakeOne(attrib: Attrib<Data>, data: seq<seq<byte>>, i: nat) returns (last: nat)
      requires i < |data| && forall k :: 0 <= k < |data| ==> |data[k]| >= 6
      modifies attrib, `refs, `leaked, `includes
      ensures fresh(attrib.Commands() - old(attrib.Commands()))
      ensures TakeEntries(World(attrib.View(), View()), data[i + 1..]) ==
              TakeEntries(World(old(attrib.View()), old(View())), data[i..])
      ensures last == FromLE16(data[i])
    {
      var incl := FromEntry(data[i]);
      assert data[i..][1..] == data[i + 1..];
      last := incl.handle;
      if |data[i]| == 6 {
        Request(attrib, Resolve(incl));
      } else {
        includes := includes + [incl];
      }
    }

    /** The loop, and the request for what follows the last entry. */
    method ListAll(attrib: Attrib<Data>, data: seq<seq<byte>>)
      requires forall i :: 0 <= i < |data| ==> |data[i]| >= 6
      modifies attrib, `refs, `leaked, `includes
      ensures fresh(attrib.Commands() - old(attrib.Commands()))
      ensures World(attrib.View(), View()) == TakeList(World(old(attrib.View()), old(View())), data)
    {
      hide TakeEntries, Ask, FromLE16;
      ghost var w := World(attrib.View(), View());
      var last := TakeAll(attrib, data);
      ghost var taken := World(attrib.View(), View());
      if last < end {
        Request(attrib, Find(last + 1));
      }
      assert TakeList(w, data) == if last < end then Ask(taken, Find(last + 1)) else taken;
    }

    method TakeResponse(attrib: Attrib<Data>, status: byte, pdu: seq<byte>)
      requires status == 0 ==> Readable(pdu)
      modifies attrib, this
      ensures fresh(attrib.Commands() - old(attrib.Commands()))
      ensures World(attrib.View(), View()) == FindCb(World(old(attrib.View()), old(View())), status, pdu)
    {
      if status != 0 {
        Fail(if status == ECODE_ATTR_NOT_FOUND then 0 else status);
        return;
      }
      var list := DecReadByTypeResp(pdu);
      if list == None || (list.value.len != 6 && list.value.len != 8) {
        Fail(ECODE_IO);
        return;
      }
      ListAll(attrib, list.value.data);
    }

    /** `find_included_cb`; the destruction of its command then drops the reference. */
    method FindIncludedCb(attrib: Attrib<Data>, status: byte, pdu: seq<byte>)
      requires attrib.Valid() && (status == 0 ==> Readable(pdu))
      modifies attrib, this
      ensures attrib.Valid() && fresh(attrib.Commands() - old(attrib.Commands()))
      ensures World(attrib.View(), View()) == FindCb(World(old(attrib.View()), old(View())), status, pdu)
    {
      ghost var next := FindInv(World(attrib.View(), View()), status, pdu);
      TakeResponse(attrib, status, pdu);
      assert World(attrib.View(), View()) == next;
    }
  }
}
