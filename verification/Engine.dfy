/** The attribute transaction engine of `gattrib.c` as a state machine over its event handlers. */
module Engine {
  import opened Bytes
  import opened AttDefs

  /** `struct command`.  `live` is false once `func` is NULL; `uid` tells apart commands that share an
      id; `data` stands for the result function with its user data. */
  datatype Cmd<+U> = Cmd(uid: nat, id: nat, pdu: seq<byte>, sent: bool, live: bool, data: U)

  /** What the engine does that its users or the peer can see. */
  datatype Event =
    | Accepted(uid: nat, live: bool)
    | Wrote(uid: nat, opcode: byte)
    | Popped(uid: nat)
    | Ran(uid: nat, status: byte)
    | Silenced(uid: nat)
    | Destroyed(uid: nat)

  /** `struct _GAttrib`.  `current` is the command whose result function is running, the local `cmd` of
      `received_data`.  `accepted`, `ioFailed` and `log` are history. */
  datatype State<+U> = State(
    requests: seq<Cmd<U>>,
    responses: seq<Cmd<U>>,
    current: Option<Cmd<U>>,
    writeWatch: bool,
    timeoutWatch: bool,
    stale: bool,
    lastId: nat,
    accepted: nat,
    ioFailed: bool,
    log: seq<Event>)

  function Init<U>(): State<U> {
    State([], [], None, false, false, false, 0, 0, false, [])
  }

  function Opcode<U>(c: Cmd<U>): byte {
    if c.pdu == [] then 0 else c.pdu[0]
  }

  // ---------------------------------------------------------------- steps

  /** `++next_cmd_id` on a 32-bit counter. */
  function NextId(id: nat): nat {
    (id + 1) % 0x1_0000_0000
  }

  /** `g_attrib_send`; the second component is the returned id, 0 for a refused command. */
  function Send<U>(s: State<U>, id: nat, pdu: seq<byte>, live: bool, data: U): (State<U>, nat)
    requires pdu != []
  {
    if s.stale then (s, 0)
    else
      var cid := if id != 0 then id else NextId(s.lastId);
      var c := Cmd(s.accepted, cid, pdu, false, live, data);
      var t := s.(lastId := if id != 0 then s.lastId else cid,
                  accepted := s.accepted + 1,
                  log := s.log + [Accepted(c.uid, live)]);
      if IsResponse(pdu[0]) then
        (t.(responses := s.responses + [c], writeWatch := s.writeWatch || s.responses == []), cid)
      else
        (t.(requests := if id != 0 then [c] + s.requests else s.requests + [c],
            writeWatch := s.writeWatch || s.requests == []), cid)
  }

  /** `can_write_data` on an armed watch.  `hup`: the channel reports an error condition; `ok`: the
      write succeeds.  A handler that returns FALSE loses its watch (`destroy_sender`). */
  function Write<U>(s: State<U>, hup: bool, ok: bool): State<U> {
    var off := s.(writeWatch := false);
    if s.stale then off
    else if hup then off.(ioFailed := true)
    else if s.responses == [] && s.requests == [] then off
    else
      var c := if s.responses != [] then s.responses[0] else s.requests[0];
      if c.sent then off
      else if !ok then off.(ioFailed := true)
      else
        var wrote := s.log + [Wrote(c.uid, Opcode(c))];
        if Expected(Opcode(c)) == 0 then
          if s.responses != [] then s.(responses := s.responses[1..], log := wrote + [Destroyed(c.uid)])
          else s.(requests := s.requests[1..], log := wrote + [Destroyed(c.uid)])
        else if s.responses != [] then
          off.(responses := s.responses[0 := c.(sent := true)], timeoutWatch := true, log := wrote)
        else
          off.(requests := s.requests[0 := c.(sent := true)], timeoutWatch := true, log := wrote)
  }

  /** What a read event brings: an error condition, a failed read, or a PDU. */
  datatype Input = Hangup | ReadError | Pdu(bytes: seq<byte>)

  /** Status handed to the result function of a popped command. */
  function Status<U>(c: Cmd<U>, bytes: seq<byte>): byte
    requires bytes != []
  {
    if bytes[0] == OP_ERROR then (if |bytes| > 4 then bytes[4] else 0)
    else if Expected(Opcode(c)) != bytes[0] then ECODE_IO
    else 0
  }

  /** `received_data` up to the call of the result function. */
  function Receive<U>(s: State<U>, input: Input): State<U>
    requires input.Pdu? ==> input.bytes != []
  {
    if s.stale || input.Hangup? then s
    else if input.ReadError? then s.(writeWatch := s.writeWatch || s.requests != [] || s.responses != [])
    else if !IsResponse(input.bytes[0]) then s
    else if s.requests == [] then s.(timeoutWatch := false)
    else
      var c, rest := s.requests[0], s.requests[1..];
      s.(requests := rest,
         current := Some(c),
         timeoutWatch := false,
         writeWatch := s.writeWatch || rest != [] || s.responses != [],
         log := s.log + [Popped(c.uid)] + if c.live then [Ran(c.uid, Status(c, input.bytes))] else [])
  }

  /** The `command_destroy` after the result function has returned. */
  function EndReceive<U>(s: State<U>): State<U>
    requires s.current.Some?
  {
    s.(current := None, log := s.log + [Destroyed(s.current.value.uid)])
  }

  /** Events of a queue whose commands are popped, run with `status` and destroyed one by one. */
  function Aborts<U>(q: seq<Cmd<U>>, status: byte): seq<Event> {
    if q == [] then []
    else
      [Popped(q[0].uid)] + (if q[0].live then [Ran(q[0].uid, status)] else []) + [Destroyed(q[0].uid)] +
      Aborts(q[1..], ECODE_ABORTED)
  }

  /** `disconnect_timeout`; the result functions it runs do not send. */
  function Timeout<U>(s: State<U>): State<U> {
    s.(requests := [], stale := true, log := s.log + Aborts(s.requests, ECODE_TIMEOUT))
  }

  function IndexOf<U>(q: seq<Cmd<U>>, id: nat): (i: nat)
    ensures i <= |q| && (i < |q| ==> q[i].id == id)
    ensures forall j :: 0 <= j < i ==> q[j].id != id
  {
    if q == [] || q[0].id == id then 0 else 1 + IndexOf(q[1..], id)
  }

  function Without<U>(q: seq<Cmd<U>>, i: nat): seq<Cmd<U>>
    requires i < |q|
  {
    q[..i] + q[i + 1..]
  }

  /** `g_attrib_cancel`. */
  function Cancel<U>(s: State<U>, id: nat): (State<U>, bool) {
    var i, j := IndexOf(s.requests, id), IndexOf(s.responses, id);
    if i < |s.requests| then
      var c := s.requests[i];
      (if i == 0 && c.sent then
         s.(requests := s.requests[0 := c.(live := false)], log := s.log + [Silenced(c.uid)])
       else
         s.(requests := Without(s.requests, i), log := s.log + [Destroyed(c.uid)]), true)
    else if j < |s.responses| then
      var c := s.responses[j];
      (if j == 0 && c.sent then
         s.(responses := s.responses[0 := c.(live := false)], log := s.log + [Silenced(c.uid)])
       else
         s.(responses := Without(s.responses, j), log := s.log + [Destroyed(c.uid)]), true)
    else
      (s, false)
  }

  function Destroys<U>(q: seq<Cmd<U>>): seq<Event> {
    if q == [] then [] else [Destroyed(q[0].uid)] + Destroys(q[1..])
  }

  /** `cancel_all_per_queue` on a queue in which at most the head is sent. */
  function CancelQueue<U>(q: seq<Cmd<U>>): (seq<Cmd<U>>, seq<Event>) {
    if q != [] && q[0].sent then ([q[0].(live := false)], [Silenced(q[0].uid)] + Destroys(q[1..]))
    else ([], Destroys(q))
  }

  /** `g_attrib_cancel_all`. */
  function CancelAll<U>(s: State<U>): State<U> {
    var (requests, first) := CancelQueue(s.requests);
    var (responses, second) := CancelQueue(s.responses);
    s.(requests := requests, responses := responses, log := s.log + first + second)
  }

  /** `attrib_destroy`. */
  function Destroy<U>(s: State<U>): State<U> {
    s.(requests := [], responses := [], writeWatch := false, timeoutWatch := false,
       log := s.log + Destroys(s.requests) + Destroys(s.responses))
  }

  // ---------------------------------------------------------------- runs

  datatype Op<+U> =
    | DoSend(id: nat, pdu: seq<byte>, live: bool, data: U)
    | DoWrite(hup: bool, ok: bool)
    | DoReceive(input: Input)
    | DoEndReceive
    | DoTimeout
    | DoCancel(cancelId: nat)
    | DoCancelAll

  /** When the main loop or the code of a callback can make a step.  Handlers do not interrupt a result
      function; a request pushed in front of the queue comes from inside one. */
  predicate Enabled<U>(s: State<U>, op: Op<U>) {
    match op
    case DoSend(id, pdu, _, _) => pdu != [] && (id != 0 && !IsResponse(pdu[0]) ==> s.current.Some?)
    case DoWrite(_, _) => s.writeWatch && s.current.None?
    case DoReceive(input) => s.current.None? && (input.Pdu? ==> 0 < |input.bytes| <= READ_BUFFER)
    case DoEndReceive => s.current.Some?
    case DoTimeout => s.timeoutWatch && s.current.None?
    case DoCancel(_) => true
    case DoCancelAll => true
  }

  function Step<U>(s: State<U>, op: Op<U>): State<U>
    requires Enabled(s, op)
  {
    match op
    case DoSend(id, pdu, live, data) => Send(s, id, pdu, live, data).0
    case DoWrite(hup, ok) => Write(s, hup, ok)
    case DoReceive(input) => Receive(s, input)
    case DoEndReceive => EndReceive(s)
    case DoTimeout => Timeout(s)
    case DoCancel(id) => Cancel(s, id).0
    case DoCancelAll => CancelAll(s)
  }

  /** The states a run of enabled steps passes through. */
  ghost predicate IsRun<U>(states: seq<State<U>>, ops: seq<Op<U>>) {
    && |states| == |ops| + 1
    && states[0] == Init()
    && forall i :: 0 <= i < |ops| ==> Enabled(states[i], ops[i]) && states[i + 1] == Step(states[i], ops[i])
  }
}
