/** Write Long Characteristic Values: `gatt_write_char`, `prepare_write` and `prepare_write_cb`. */
module LongWrite {
  import opened Bytes
  import opened AttDefs
  import opened AttCodec
  import opened AttRequests

  const WRITE_ALL_PREP_WRITES: byte := 1

  /** `struct write_long_data`, with the PDUs handed to `g_attrib_send` and the statuses handed to the
      user's function so far.  `freed`: the procedure has given up its memory.  `overread`: it has read past
      the value, and nothing is said about what it does from then on. */
  datatype Write = Write(mtu: nat, handle: nat, value: seq<byte>, offset: nat,
                         sent: seq<seq<byte>>, statuses: seq<byte>, freed: bool, overread: bool)

  /** `prepare_write` at the current offset. */
  function Prepare(w: Write): seq<byte>
    requires w.mtu >= 5 && w.offset <= |w.value|
  {
    PrepWriteReq(w.handle, w.offset, w.value[w.offset..], w.mtu)
  }

  /** `gatt_write_char` with a result function: one request if the value fits, else the first part. */
  function Start(mtu: nat, handle: nat, value: seq<byte>): (w: Write)
    requires mtu >= 5
    ensures w.mtu == mtu && w.value == value && w.offset == 0 && !w.freed && !w.overread
    ensures |value| > mtu - 3 ==> w.sent == [Prepare(w)]
  {
    var w := Write(mtu, handle, value, 0, [], [], false, false);
    w.(sent := [if |value| <= mtu - 3 then WriteReq(handle, value, mtu) else Prepare(w)])
  }

  /** The 16-bit `offset` after a response of `rlen` bytes. */
  function Advance(offset: nat, rlen: nat): nat {
    (offset + rlen - 5) % 0x1_0000
  }

  /** The procedure after a response has moved the offset: the last part is followed by the execute
      request, any other by the next part, which lies outside the value if the offset does. */
  function Moved(w: Write, moved: nat): Write
    requires w.mtu >= 5
  {
    if moved > |w.value| then
      w.(offset := moved, overread := true)
    else if moved == |w.value| then
      w.(offset := moved, sent := w.sent + [ExecWriteReq(WRITE_ALL_PREP_WRITES)], freed := true)
    else
      w.(offset := moved, sent := w.sent + [Prepare(w.(offset := moved))])
  }

  /** `prepare_write_cb`. */
  function Callback(w: Write, status: byte, rpdu: seq<byte>): Write
    requires w.mtu >= 5
  {
    if status != 0 then w.(statuses := w.statuses + [status])
    else Moved(w, Advance(w.offset, |rpdu|))
  }

  /** The procedure as the source has it: the offset moves in place. */
  class WriteLong {
    const mtu: nat
    const handle: nat
    const value: seq<byte>
    var offset: nat
    var sent: seq<seq<byte>>
    var statuses: seq<byte>
    var freed: bool
    ghost var overread: bool

    ghost function View(): Write
      reads this
    {
      Write(mtu, handle, value, offset, sent, statuses, freed, overread)
    }

    constructor (mtu: nat, handle: nat, value: seq<byte>)
      requires mtu >= 5
      ensures View() == Start(mtu, handle, value)
    {
      this.mtu, this.handle, this.value := mtu, handle, value;
      offset, statuses, freed, overread := 0, [], false, false;
      sent := [if |value| <= mtu - 3 then WriteReq(handle, value, mtu) else PrepWriteReq(handle, 0, value, mtu)];
      new;
      assert value[0..] == value;
    }

    method PrepareWriteCb(status: byte, rpdu: seq<byte>)
      requires mtu >= 5
      modifies this
      ensures View() == Callback(old(View()), status, rpdu)
    {
      if status != 0 {
        statuses := statuses + [status];
        return;
      }
      offset := Advance(offset, |rpdu|);
      if offset == |value| {
        sent := sent + [ExecWriteReq(WRITE_ALL_PREP_WRITES)];
        freed := true;
        return;
      }
      if offset > |value| {
        overread := true;
        return;
      }
      sent := sent + [PrepWriteReq(handle, offset, value[offset..], mtu)];
    }
  }

  // ---------------------------------------------------------------- the parts

  predicate IsPrepare(req: seq<byte>) {
    |req| > 5 && req[0] == OP_PREP_WRITE_REQ
  }

  /** What a prepared part carries, and where it says that belongs. */
  function PartBytes(req: seq<byte>): seq<byte> {
    if |req| >= 5 then req[5..] else []
  }

  function PartOffset(req: seq<byte>): nat
    requires |req| >= 5
  {
    FromLE16(req[3..])
  }

  /** What is seen of the echo of a prepare request. */
  function Echo(req: seq<byte>): (echo: seq<byte>)
    requires IsPrepare(req)
    ensures 5 < |echo| <= |req| && (|req| <= READ_BUFFER ==> |echo| == |req|)
  {
    Seen([OP_PREP_WRITE_RESP] + req[1..])
  }

  /** Parts that follow each other without gap or overlap from `from` on, none of them empty. */
  ghost predicate Contiguous(parts: seq<seq<byte>>, from: nat) {
    parts == [] ||
    (IsPrepare(parts[0]) && PartOffset(parts[0]) == from &&
     Contiguous(parts[1..], from + |PartBytes(parts[0])|))
  }

  function Carried(parts: seq<seq<byte>>): seq<byte> {
    if parts == [] then [] else PartBytes(parts[0]) + Carried(parts[1..])
  }

  lemma PrepareShape(w: Write) returns (req: seq<byte>)
    requires w.mtu > 5 && w.offset < |w.value| && w.offset < 0x1_0000
    ensures req == Prepare(w) && IsPrepare(req) && |req| <= w.mtu
    ensures PartOffset(req) == w.offset
    ensures |PartBytes(req)| == if w.mtu - 5 <= |w.value| - w.offset then w.mtu - 5 else |w.value| - w.offset
    ensures PartBytes(req) == w.value[w.offset..w.offset + |PartBytes(req)|]
  {
    req := Prepare(w);
    assert req[3..5] == LE16(w.offset);
    LE16RoundTrip(w.offset, req[3..]);
  }

  /** The part that waits for its echo. */
  function Last(w: Write): seq<byte>
    requires w.sent != []
  {
    w.sent[|w.sent| - 1]
  }

  /** Between the parts, for any MTU and any length. */
  ghost predicate Preparing(w: Write) {
    && w.mtu > 5 && w.offset < |w.value| && w.offset < 0x1_0000
    && w.sent != [] && (forall req <- w.sent :: IsPrepare(req))
    && |PartBytes(Last(w))| <= |w.value| - w.offset
    && w.statuses == [] && !w.freed && !w.overread
  }

  // ---------------------------------------------------------------- against any responses of status 0

  /** The length of a response is a `guint16`, and the engine completes no request with an empty PDU. */
  predicate Response(rpdu: seq<byte>) {
    0 < |rpdu| <= 0xffff
  }

  /** The response ends behind the value: the 16-bit offset either stays within its range, or has wrapped below
      zero because a response to one of the first bytes is shorter than the 5 bytes that are skipped. */
  predicate EndsBehind(w: Write, rpdu: seq<byte>) {
    var end := w.offset + |rpdu|;
    if end < 5 then |w.value| < end + 65531 else |w.value| < end - 5 <= 0xffff
  }

  /** After any response the code reads past the value if and only if the response ends behind it. */
  lemma OverreadIff(w: Write, rpdu: seq<byte>)
    requires Preparing(w) && Response(rpdu)
    ensures Callback(w, 0, rpdu).overread <==> EndsBehind(w, rpdu)
  {
    var end := w.offset + |rpdu|;
    assert Advance(w.offset, |rpdu|) ==
           if end < 5 then end + 65531 else if end - 5 <= 0xffff then end - 5 else end - 65541;
  }

  /** So nothing is read past the value as long as a response has its header and is not longer than the request
      it answers. */
  lemma NoOverread(w: Write, rpdu: seq<byte>)
    requires Preparing(w) && 5 <= |rpdu| <= |Last(w)| && Response(rpdu)
    ensures !Callback(w, 0, rpdu).overread
  {
    OverreadIff(w, rpdu);
    assert Last(w) in w.sent;
  }

  /** To the last part any longer response makes the code read past the value, until its length no longer
      fits the 16-bit offset. */
  lemma LongResponseOverreads(w: Write, rpdu: seq<byte>)
    requires Preparing(w) && w.offset + |PartBytes(Last(w))| == |w.value| && |rpdu| >= 5 && Response(rpdu)
    requires w.offset + |rpdu| - 5 <= 0xffff
    ensures Callback(w, 0, rpdu).overread <==> |rpdu| > |Last(w)|
  {
    OverreadIff(w, rpdu);
    assert Last(w) in w.sent;
  }

  /** To the first part a response of nothing but its opcode is enough. */
  lemma ShortResponseOverreads(mtu: nat, handle: nat, value: seq<byte>)
    requires mtu > 5 && mtu - 3 < |value| < 65532
    ensures Callback(Start(mtu, handle, value), 0, [OP_PREP_WRITE_RESP]).overread
  {
    var req := PrepareShape(Start(mtu, handle, value));
    OverreadIff(Start(mtu, handle, value), [OP_PREP_WRITE_RESP]);
  }

  /** And a longer response than the request need not do it: the bytes between are then never sent. */
  lemma LongResponseSkips(handle: nat, value: seq<byte>, rpdu: seq<byte>)
    requires |value| > 20 && |rpdu| == 24
    ensures var w := Start(23, handle, value);
            var next := Callback(w, 0, rpdu);
            && |Last(w)| == 23 && PartBytes(Last(w)) == value[..18] && !next.overread
            && |next.sent| == 2 && PartOffset(Last(next)) == 19
  {
    var first := PrepareShape(Start(23, handle, value));
    var second := PrepareShape(Start(23, handle, value).(offset := 19));
  }

  /** The procedure after responses of status 0, as long as it lasts. */
  function Answered(w: Write, rs: seq<seq<byte>>): Write
    requires w.mtu >= 5
    ensures Answered(w, rs).mtu == w.mtu
  {
    if rs == [] then w
    else
      var before := Answered(w, rs[..|rs| - 1]);
      if before.freed || before.overread then before else Callback(before, 0, rs[|rs| - 1])
  }

  function Total(rs: seq<seq<byte>>): nat {
    if rs == [] then 0 else Total(rs[..|rs| - 1]) + |rs[|rs| - 1]|
  }

  /** Where the lengths of the responses alone put the offset. */
  function Reached(rs: seq<seq<byte>>): nat {
    (Total(rs) - 5 * |rs|) % 0x1_0000
  }

  /** The first `n` responses are the first that put the offset at or behind the end. */
  ghost predicate StopsAfter(rs: seq<seq<byte>>, len: nat, n: nat) {
    n <= |rs| && Reached(rs[..n]) >= len && forall k: nat :: k < n ==> Reached(rs[..k]) < len
  }

  lemma ResponseStep(w: Write, rpdu: seq<byte>) returns (next: Write)
    requires Preparing(w)
    ensures next == Callback(w, 0, rpdu)
    ensures var moved := Advance(w.offset, |rpdu|);
            && next.offset == moved && next.value == w.value && next.mtu == w.mtu
            && (next.overread <==> moved > |w.value|) && (next.freed <==> moved == |w.value|)
            && (moved < |w.value| ==> Preparing(next))
  {
    next := Callback(w, 0, rpdu);
    var moved := Advance(w.offset, |rpdu|);
    if moved < |w.value| {
      var req := PrepareShape(w.(offset := moved));
    }
  }

  lemma ReachedStep(rs: seq<seq<byte>>, rpdu: seq<byte>)
    ensures Reached(rs + [rpdu]) == Advance(Reached(rs), |rpdu|)
  {
    assert (rs + [rpdu])[..|rs|] == rs;
  }

  lemma StopsOnce(rs: seq<seq<byte>>, len: nat, k: nat, n: nat)
    requires StopsAfter(rs, len, k) && StopsAfter(rs, len, n)
    ensures k == n
  {
  }

  /** The offset has not reached the end yet. */
  ghost predicate Unfinished(rs: seq<seq<byte>>, len: nat) {
    forall k: nat :: k <= |rs| ==> Reached(rs[..k]) < len
  }

  ghost predicate StoppedAfter(end: Write, rs: seq<seq<byte>>, len: nat, n: nat) {
    && StopsAfter(rs, len, n)
    && (end.overread <==> Reached(rs[..n]) > len) && (end.freed <==> Reached(rs[..n]) == len)
  }

  ghost predicate Awaiting(end: Write, rs: seq<seq<byte>>, value: seq<byte>) {
    Preparing(end) && end.value == value && end.offset == Reached(rs) && Unfinished(rs, |value|)
  }

  lemma PrefixOfPrefix<T>(s: seq<T>, m: nat)
    requires m <= |s|
    ensures forall k: nat :: k <= m ==> s[..m][..k] == s[..k]
  {
  }

  lemma NextResponse(w: Write, rs: seq<seq<byte>>, value: seq<byte>) returns (next: Write)
    requires rs != [] && Awaiting(w, rs[..|rs| - 1], value)
    ensures next == Callback(w, 0, rs[|rs| - 1])
    ensures Awaiting(next, rs, value) || StoppedAfter(next, rs, |value|, |rs|)
  {
    hide Callback;
    var m := |rs| - 1;
    assert rs == rs[..m] + [rs[m]] && rs[..|rs|] == rs;
    ReachedStep(rs[..m], rs[m]);
    next := ResponseStep(w, rs[m]);
    PrefixOfPrefix(rs, m);
    assert forall k: nat :: k <= m ==> Reached(rs[..k]) < |value|;
  }

  lemma {:induction false} AnsweredOutcome(mtu: nat, handle: nat, value: seq<byte>, rs: seq<seq<byte>>) returns (n: nat)
    requires mtu > 5 && |value| > mtu - 3
    ensures var end := Answered(Start(mtu, handle, value), rs);
            Awaiting(end, rs, value) || StoppedAfter(end, rs, |value|, n)
    decreases |rs|
  {
    var w := Start(mtu, handle, value);
    n := |rs|;
    if rs == [] {
      var req := PrepareShape(w);
      assert Awaiting(w, rs, value);
    } else {
      var m := |rs| - 1;
      n := AnsweredOutcome(mtu, handle, value, rs[..m]);
      var before := Answered(w, rs[..m]);
      PrefixOfPrefix(rs, m);
      if Awaiting(before, rs[..m], value) {
        n := |rs|;
        var next := NextResponse(before, rs, value);
      }
    }
  }

  /** Whatever responses of status 0 the parts are answered with, a caller can tell from their lengths how the
      procedure ends: the first response that puts the offset at the end has it executed, the first that puts
      the offset behind the end has it read past the value. */
  lemma OverreadsIff(mtu: nat, handle: nat, value: seq<byte>, rs: seq<seq<byte>>)
    requires mtu > 5 && |value| > mtu - 3
    ensures var end := Answered(Start(mtu, handle, value), rs);
            && (end.overread <==> exists n: nat :: StopsAfter(rs, |value|, n) && Reached(rs[..n]) > |value|)
            && (end.freed <==> exists n: nat :: StopsAfter(rs, |value|, n) && Reached(rs[..n]) == |value|)
  {
    var n := AnsweredOutcome(mtu, handle, value, rs);
    var end := Answered(Start(mtu, handle, value), rs);
    if StoppedAfter(end, rs, |value|, n) {
      forall k: nat | StopsAfter(rs, |value|, k) ensures k == n {
        StopsOnce(rs, |value|, k, n);
      }
    }
  }

  /** Every response has its header and is not longer than the part it answers, which is that of the moment. */
  ghost predicate Fitting(w: Write, rs: seq<seq<byte>>)
    requires w.mtu >= 5
  {
    forall k: nat :: k < |rs| ==>
      && 5 <= |rs[k]| <= 0xffff
      && (Answered(w, rs[..k]).sent != [] ==> |rs[k]| <= |Last(Answered(w, rs[..k]))|)
  }

  lemma FittingPrefix(w: Write, rs: seq<seq<byte>>)
    requires w.mtu >= 5 && rs != [] && Fitting(w, rs)
    ensures var m := |rs| - 1;
            && Fitting(w, rs[..m]) && 5 <= |rs[m]| <= 0xffff
            && (Answered(w, rs[..m]).sent != [] ==> |rs[m]| <= |Last(Answered(w, rs[..m]))|)
  {
    PrefixOfPrefix(rs, |rs| - 1);
  }

  /** Such responses never make it read past the value, in any run. */
  lemma {:induction false} FittingNeverOverreads(mtu: nat, handle: nat, value: seq<byte>, rs: seq<seq<byte>>)
    requires mtu > 5 && |value| > mtu - 3 && Fitting(Start(mtu, handle, value), rs)
    ensures !Answered(Start(mtu, handle, value), rs).overread
    decreases |rs|
  {
    hide Fitting, Callback;
    var w := Start(mtu, handle, value);
    if rs != [] {
      var m := |rs| - 1;
      FittingPrefix(w, rs);
      FittingNeverOverreads(mtu, handle, value, rs[..m]);
      var n := AnsweredOutcome(mtu, handle, value, rs[..m]);
      var before := Answered(w, rs[..m]);
      if Awaiting(before, rs[..m], value) {
        NoOverread(before, rs[m]);
      }
    }
  }

  // ---------------------------------------------------------------- against an echoing server

  /** One echoed part. */
  function EchoStep(w: Write): Write
    requires w.mtu > 5 && w.sent != [] && IsPrepare(Last(w))
  {
    Callback(w, 0, Echo(Last(w)))
  }

  /** The offset moves by what was seen of the part, within 16 bits. */
  lemma EchoAdvances(w: Write) returns (moved: nat)
    requires Preparing(w)
    ensures moved == (w.offset + |Echo(Last(w))| - 5) % 0x1_0000 <= |w.value| && EchoStep(w) == Moved(w, moved)
    ensures |w.value| <= 0xffff ==> moved == w.offset + |Echo(Last(w))| - 5 > w.offset
  {
    moved := Advance(w.offset, |Echo(Last(w))|);
  }

  /** One echoed part moves the offset on, or ends the procedure; a length above 65535 is never reached. */
  lemma PreparingStep(w: Write) returns (next: Write)
    requires Preparing(w)
    ensures next == EchoStep(w) && next.statuses == [] && next.mtu == w.mtu && next.value == w.value
    ensures !next.overread
    ensures |next.sent| == |w.sent| + 1 && next.sent[..|w.sent|] == w.sent
    ensures next.freed || Preparing(next)
    ensures |w.value| > 0xffff ==> !next.freed
    ensures |w.value| <= 0xffff ==> next.offset > w.offset
    ensures next.offset <= |w.value|
  {
    var moved := EchoAdvances(w);
    next := Moved(w, moved);
    if moved < |w.value| {
      var req := PrepareShape(w.(offset := moved));
      assert next == w.(offset := moved, sent := w.sent + [req]);
    }
  }

  ghost predicate Echoed(before: Write, after: Write) {
    Preparing(before) && after == EchoStep(before)
  }

  /** The states between the echoes of a server that answers every part. */
  ghost predicate IsEchoRun(ws: seq<Write>, mtu: nat, handle: nat, value: seq<byte>)
    requires mtu >= 5
  {
    && ws != [] && ws[0] == Start(mtu, handle, value)
    && forall i, j :: 0 <= i && j == i + 1 < |ws| ==> Echoed(ws[i], ws[j])
  }

  lemma {:induction false} CarriedAppend(parts: seq<seq<byte>>, req: seq<byte>)
    ensures Carried(parts + [req]) == Carried(parts) + PartBytes(req)
  {
    if parts == [] {
      assert [req][1..] == [] && parts + [req] == [req];
    } else {
      CarriedAppend(parts[1..], req);
      assert (parts + [req])[1..] == parts[1..] + [req] && (parts + [req])[0] == parts[0];
      Assoc(PartBytes(parts[0]), Carried(parts[1..]), PartBytes(req));
    }
  }

  lemma {:induction false} ContiguousAppend(parts: seq<seq<byte>>, from: nat, req: seq<byte>)
    requires Contiguous(parts, from) && IsPrepare(req) && PartOffset(req) == from + |Carried(parts)|
    ensures Contiguous(parts + [req], from)
    decreases |parts|
  {
    if parts == [] {
      assert [req][1..] == [] && parts + [req] == [req];
    } else {
      ContiguousAppend(parts[1..], from + |PartBytes(parts[0])|, req);
      assert (parts + [req])[1..] == parts[1..] + [req] && (parts + [req])[0] == parts[0];
    }
  }

  /** Everything sent so far is a tiling of the value up to the end of the last part, which starts at the
      current offset. */
  ghost predicate Tiling(w: Write) {
    && Preparing(w)
    && Contiguous(w.sent, 0)
    && Carried(w.sent) == w.value[..w.offset + |PartBytes(Last(w))|]
    && forall req <- w.sent :: |req| <= w.mtu
  }

  /** One more part behind a tiling up to its offset. */
  lemma PartTiles(w: Write, req: seq<byte>)
    requires w.mtu > 5 && w.offset < |w.value| && w.offset < 0x1_0000 && w.statuses == []
    requires !w.freed && !w.overread
    requires IsPrepare(req) && |req| <= w.mtu && PartOffset(req) == w.offset && |PartBytes(req)| <= |w.value| - w.offset
    requires PartBytes(req) == w.value[w.offset..w.offset + |PartBytes(req)|]
    requires Contiguous(w.sent, 0) && Carried(w.sent) == w.value[..w.offset]
    requires forall r <- w.sent :: IsPrepare(r) && |r| <= w.mtu
    ensures Tiling(w.(sent := w.sent + [req]))
  {
    CarriedAppend(w.sent, req);
    ContiguousAppend(w.sent, 0, req);
    assert w.value[..w.offset] + PartBytes(req) == w.value[..w.offset + |PartBytes(req)|];
  }

  lemma StartTiles(mtu: nat, handle: nat, value: seq<byte>)
    requires mtu > 5 && |value| > mtu - 3
    ensures Tiling(Start(mtu, handle, value))
  {
    var w := Start(mtu, handle, value);
    var req := PrepareShape(w);
    PartTiles(w.(sent := []), req);
    assert [] + [req] == w.sent;
  }

  /** The procedure has ended well: no status but that of the execute request is left to come, and the
      parts before that request tile the value. */
  ghost predicate Executed(end: Write, value: seq<byte>, mtu: nat) {
    && end.freed && !end.overread && end.statuses == [] && |end.sent| > 1
    && var parts := end.sent[..|end.sent| - 1];
       && end.sent == parts + [ExecWriteReq(WRITE_ALL_PREP_WRITES)]
       && Contiguous(parts, 0) && Carried(parts) == value
       && forall req <- parts :: IsPrepare(req) && |req| <= mtu
  }

  /** The tiling grows until it is complete and executed. */
  ghost predicate OnTrack(w: Write, value: seq<byte>, mtu: nat) {
    if w.freed then Executed(w, value, mtu) else Tiling(w) && w.value == value && w.mtu == mtu
  }

  lemma LastPartTiles(w: Write) returns (next: Write)
    requires Tiling(w) && w.offset + |PartBytes(Last(w))| == |w.value|
    ensures next == Moved(w, |w.value|) && Executed(next, w.value, w.mtu)
  {
    next := Moved(w, |w.value|);
    assert next.sent[..|next.sent| - 1] == w.sent;
    assert w.value[..|w.value|] == w.value;
  }

  lemma NextPartTiles(w: Write, moved: nat) returns (next: Write)
    requires Tiling(w) && moved == w.offset + |PartBytes(Last(w))| < |w.value| <= 0xffff
    ensures next == Moved(w, moved) && Tiling(next)
    ensures next.value == w.value && next.mtu == w.mtu && next.offset == moved
  {
    var req := PrepareShape(w.(offset := moved));
    PartTiles(w.(offset := moved), req);
    next := w.(offset := moved, sent := w.sent + [req]);
  }

  /** An echoed part either completes the value, and the execute request follows, or the tiling grows by a
      part that starts further on. */
  lemma TilingStep(w: Write) returns (next: Write)
    requires Tiling(w) && w.mtu <= READ_BUFFER && |w.value| <= 0xffff
    ensures next == EchoStep(w) && OnTrack(next, w.value, w.mtu) && next.offset > w.offset
  {
    assert |Last(w)| <= w.mtu;
    var moved := EchoAdvances(w);
    if moved == |w.value| {
      next := LastPartTiles(w);
    } else {
      next := NextPartTiles(w, moved);
    }
  }

  lemma {:induction false} RunTiles(ws: seq<Write>, mtu: nat, handle: nat, value: seq<byte>, i: nat)
    requires 5 < mtu <= READ_BUFFER && mtu - 3 < |value| <= 0xffff
    requires IsEchoRun(ws, mtu, handle, value) && i < |ws|
    ensures OnTrack(ws[i], value, mtu)
  {
    hide EchoStep, Tiling, Executed;
    if i == 0 {
      StartTiles(mtu, handle, value);
    } else {
      RunTiles(ws, mtu, handle, value, i - 1);
      assert Echoed(ws[i - 1], ws[i]);
      var next := TilingStep(ws[i - 1]);
    }
  }

  /** In every run: no status reaches the user, nothing but parts is sent until the run is over, the offset
      grows with every echo, and a length above 65535 is never reached. */
  lemma {:induction false} RunPrepares(ws: seq<Write>, mtu: nat, handle: nat, value: seq<byte>, i: nat)
    requires mtu > 5 && mtu - 3 < |value| && IsEchoRun(ws, mtu, handle, value) && i < |ws|
    ensures var w := ws[i];
            && w.mtu == mtu && w.value == value && w.statuses == [] && !w.overread
            && (w.freed || Preparing(w))
            && w.offset <= |value| && (if |value| <= 0xffff then i <= w.offset else !w.freed)
  {
    hide EchoStep;
    if i == 0 {
      StartTiles(mtu, handle, value);
    } else {
      RunPrepares(ws, mtu, handle, value, i - 1);
      assert Echoed(ws[i - 1], ws[i]);
      var next := PreparingStep(ws[i - 1]);
    }
  }

  lemma {:induction false} FirstPartsStay(ws: seq<Write>, mtu: nat, handle: nat, value: seq<byte>, i: nat)
    requires mtu > 5 && mtu - 3 < |value| && IsEchoRun(ws, mtu, handle, value) && 1 <= i < |ws|
    ensures ws[1].sent <= ws[i].sent
    decreases i
  {
    if i > 1 {
      FirstPartsStay(ws, mtu, handle, value, i - 1);
      assert Echoed(ws[i - 1], ws[i]);
      var next := PreparingStep(ws[i - 1]);
    }
  }

  lemma SecondPartOverlaps(end: Write, first: seq<byte>, second: seq<byte>, value: seq<byte>, mtu: nat)
    requires [first, second] <= end.sent && IsPrepare(second) && |first| > 5
    requires PartOffset(second) < |PartBytes(first)|
    ensures !Executed(end, value, mtu)
  {
    var parts := end.sent[..|end.sent| - 1];
    assert end.sent[0] == first && end.sent[1] == second;
    if |parts| > 1 {
      assert parts[0] == first && parts[1..][0] == second;
      assert !Contiguous(parts[1..], 0 + |PartBytes(parts[0])|);
    }
  }

  lemma FirstTwoParts(w: Write, handle: nat, value: seq<byte>) returns (first: seq<byte>, second: seq<byte>)
    requires w.mtu > READ_BUFFER && |value| > w.mtu - 3 && w == Start(w.mtu, handle, value)
    ensures Preparing(w) && EchoStep(w).sent == [first, second]
    ensures |first| == w.mtu && IsPrepare(second) && PartOffset(second) == READ_BUFFER - 5
  {
    first := PrepareShape(w);
    assert w.sent == [first];
    var moved := EchoAdvances(w);
    second := PrepareShape(w.(offset := moved));
  }

  /** With a larger MTU the echo of the first part does not fit the read buffer, and the second part starts
      inside the first. */
  lemma LargeMtuOverlaps(ws: seq<Write>, mtu: nat, handle: nat, value: seq<byte>)
    requires mtu > READ_BUFFER && |value| > mtu - 3 && IsEchoRun(ws, mtu, handle, value)
    ensures !Executed(ws[|ws| - 1], value, mtu)
  {
    if |ws| > 1 {
      var first, second := FirstTwoParts(ws[0], handle, value);
      assert Echoed(ws[0], ws[1]);
      FirstPartsStay(ws, mtu, handle, value, |ws| - 1);
      SecondPartOverlaps(ws[|ws| - 1], first, second, value, mtu);
    }
  }

  /** When an echoing server has answered every part of a value that does not fit one request, the parts
      are contiguous, non-empty and together the value, and one execute request follows them - if and only
      if a full echo fits the read buffer. */
  lemma LongWriteTiles(ws: seq<Write>, mtu: nat, handle: nat, value: seq<byte>)
    requires mtu > 5 && mtu - 3 < |value| && IsEchoRun(ws, mtu, handle, value) && ws[|ws| - 1].freed
    ensures Executed(ws[|ws| - 1], value, mtu) <==> mtu <= READ_BUFFER
  {
    RunPrepares(ws, mtu, handle, value, |ws| - 1);
    if mtu <= READ_BUFFER {
      RunTiles(ws, mtu, handle, value, |ws| - 1);
    } else {
      LargeMtuOverlaps(ws, mtu, handle, value);
    }
  }

  /** What a server's value holds after a part has been written at an offset within it or at its end; any other
      offset is refused. */
  function Store(held: seq<byte>, at: nat, bytes: seq<byte>): seq<byte> {
    if at > |held| then held
    else held[..at] + bytes + (if at + |bytes| < |held| then held[at + |bytes|..] else [])
  }

  /** What it holds after the prepared parts have been executed in their order. */
  function Applied(parts: seq<seq<byte>>, held: seq<byte>): seq<byte> {
    if parts == [] then held
    else
      var part := parts[|parts| - 1];
      var before := Applied(parts[..|parts| - 1], held);
      if |part| < 5 then before else Store(before, PartOffset(part), PartBytes(part))
  }

  /** The first `to` bytes of the value in front of what was there behind them. */
  function Overwritten(held: seq<byte>, value: seq<byte>, to: nat): seq<byte>
    requires to <= |value|
  {
    value[..to] + (if to < |held| then held[to..] else [])
  }

  /** A part that starts inside what has been overwritten and ends at or behind its end. */
  lemma StoreExtends(held: seq<byte>, value: seq<byte>, from: nat, at: nat, bytes: seq<byte>)
    requires at <= from <= at + |bytes| <= |value| && bytes == value[at..at + |bytes|]
    ensures Store(Overwritten(held, value, from), at, bytes) == Overwritten(held, value, at + |bytes|)
  {
    var before := Overwritten(held, value, from);
    var to := at + |bytes|;
    assert before[..at] == value[..at];
    assert value[..at] + bytes == value[..to];
    if to < |before| {
      assert before[to..] == held[to..];
    }
  }

  lemma AppliedAppend(parts: seq<seq<byte>>, req: seq<byte>, held: seq<byte>)
    requires IsPrepare(req)
    ensures Applied(parts + [req], held) == Store(Applied(parts, held), PartOffset(req), PartBytes(req))
  {
    assert (parts + [req])[..|parts|] == parts;
  }

  /** Where the part that waits for its echo ends. */
  function Covered(w: Write): nat
    requires w.sent != []
  {
    w.offset + |PartBytes(Last(w))|
  }

  /** The parts sent so far bring the value to the server up to the end of the last one. */
  ghost predicate Brought(w: Write, held: seq<byte>) {
    && Preparing(w) && |Last(w)| <= w.mtu
    && Applied(w.sent, held) == Overwritten(held, w.value, Covered(w))
  }

  lemma StartBrings(mtu: nat, handle: nat, value: seq<byte>, held: seq<byte>)
    requires mtu > 5 && |value| > mtu - 3
    ensures Brought(Start(mtu, handle, value), held)
  {
    var w := Start(mtu, handle, value);
    var req := PrepareShape(w);
    AppliedAppend([], req, held);
    assert [] + [req] == w.sent && Overwritten(held, value, 0) == held == Applied([], held);
    StoreExtends(held, value, 0, 0, PartBytes(req));
  }

  /** The next part starts inside the last one and does not end before it. */
  lemma NextPart(w: Write, moved: nat) returns (req: seq<byte>)
    requires Preparing(w) && |Last(w)| <= w.mtu && w.offset < moved <= Covered(w) && moved < |w.value| <= 0xffff
    ensures var next := Moved(w, moved);
            && next.value == w.value && next.sent == w.sent + [req] && Preparing(next) && |Last(next)| <= w.mtu
            && next.mtu == w.mtu && Covered(w) <= Covered(next) == moved + |PartBytes(req)| <= |w.value|
    ensures IsPrepare(req) && PartOffset(req) == moved && PartBytes(req) == w.value[moved..moved + |PartBytes(req)|]
  {
    req := PrepareShape(w.(offset := moved));
    assert |Last(w)| > 5 by { assert Last(w) in w.sent; }
    assert Last(Moved(w, moved)) == req;
  }

  lemma NextPartBrings(w: Write, moved: nat, held: seq<byte>) returns (next: Write)
    requires Brought(w, held) && w.offset < moved <= Covered(w) && moved < |w.value| <= 0xffff
    ensures next == Moved(w, moved) && Brought(next, held)
  {
    hide Applied, Store, Overwritten, PartBytes, PartOffset, Moved, IsPrepare, Covered;
    var req := NextPart(w, moved);
    next := Moved(w, moved);
    assert Applied(w.sent, held) == Overwritten(held, w.value, Covered(w));
    AppliedAppend(w.sent, req, held);
    StoreExtends(held, w.value, Covered(w), moved, PartBytes(req));
    assert Brought(next, held);
  }

  /** The procedure is over, and the server that executes what it was sent holds the value. */
  ghost predicate Delivered(end: Write, value: seq<byte>, held: seq<byte>) {
    && end.freed && |end.sent| > 1 && end.sent[|end.sent| - 1] == ExecWriteReq(WRITE_ALL_PREP_WRITES)
    && Applied(end.sent[..|end.sent| - 1], held) == Overwritten(held, value, |value|)
  }

  lemma LastPartBrings(w: Write, held: seq<byte>) returns (next: Write)
    requires Brought(w, held) && Covered(w) == |w.value|
    ensures next == Moved(w, |w.value|) && Delivered(next, w.value, held)
  {
    next := Moved(w, |w.value|);
    assert next.sent[..|next.sent| - 1] == w.sent;
  }

  lemma EchoBrings(w: Write, held: seq<byte>) returns (next: Write)
    requires Brought(w, held) && |w.value| <= 0xffff
    ensures next == EchoStep(w) && next.value == w.value && next.mtu == w.mtu
    ensures if next.freed then Delivered(next, w.value, held) else Brought(next, held)
  {
    hide Applied, Overwritten;
    var moved := EchoAdvances(w);
    assert moved <= Covered(w);
    if moved == |w.value| {
      next := LastPartBrings(w, held);
    } else {
      next := NextPartBrings(w, moved, held);
    }
  }

  lemma {:induction false} RunBrings(ws: seq<Write>, mtu: nat, handle: nat, value: seq<byte>, held: seq<byte>, i: nat)
    requires mtu > 5 && mtu - 3 < |value| <= 0xffff && IsEchoRun(ws, mtu, handle, value) && i < |ws|
    ensures ws[i].value == value
    ensures if ws[i].freed then Delivered(ws[i], value, held) else Brought(ws[i], held)
  {
    hide EchoStep, Delivered, Brought;
    if i == 0 {
      StartBrings(mtu, handle, value, held);
    } else {
      RunBrings(ws, mtu, handle, value, held, i - 1);
      assert Echoed(ws[i - 1], ws[i]);
      assert !ws[i - 1].freed;
      var next := EchoBrings(ws[i - 1], held);
    }
  }

  /** Even where the parts overlap: a server that writes them in their order holds the value, in front of what a
      longer earlier value had behind it. */
  lemma PartsBring(ws: seq<Write>, mtu: nat, handle: nat, value: seq<byte>, held: seq<byte>)
    returns (parts: seq<seq<byte>>)
    requires mtu > 5 && mtu - 3 < |value| && IsEchoRun(ws, mtu, handle, value) && ws[|ws| - 1].freed
    ensures parts != [] && ws[|ws| - 1].sent == parts + [ExecWriteReq(WRITE_ALL_PREP_WRITES)]
    ensures Applied(parts, held) == Overwritten(held, value, |value|)
  {
    RunPrepares(ws, mtu, handle, value, |ws| - 1);
    RunBrings(ws, mtu, handle, value, held, |ws| - 1);
    parts := ws[|ws| - 1].sent[..|ws[|ws| - 1].sent| - 1];
  }

  // ---------------------------------------------------------------- what the peer ends up with

  /** A peer with its attribute values by handle and the parts it has queued. */
  datatype Peer = Peer(values: map<nat, seq<byte>>, queue: seq<Request>)

  /** The values after the queued parts have been written in their order. */
  function Committed(values: map<nat, seq<byte>>, queue: seq<Request>): map<nat, seq<byte>> {
    if queue == [] then values
    else
      var before, part := Committed(values, queue[..|queue| - 1]), queue[|queue| - 1];
      if part.PrepareWrite? && part.handle in before then
        before[part.handle := Store(before[part.handle], part.offset, part.value)]
      else before
  }

  /** The peer goes by nothing but the PDUs it is sent. */
  function Receives(p: Peer, pdu: seq<byte>): Peer {
    match Parse(pdu)
    case WriteValue(handle, value) => if handle in p.values then p.(values := p.values[handle := value]) else p
    case PrepareWrite(_, _, _) => p.(queue := p.queue + [Parse(pdu)])
    case ExecuteWrite(flags) => Peer(if flags == 0x01 then Committed(p.values, p.queue) else p.values, [])
    case _ => p
  }

  function ReceivesAll(p: Peer, pdus: seq<seq<byte>>): Peer {
    if pdus == [] then p else Receives(ReceivesAll(p, pdus[..|pdus| - 1]), pdus[|pdus| - 1])
  }

  /** Every part names the handle. */
  ghost predicate Names(parts: seq<seq<byte>>, handle: nat) {
    forall req <- parts :: IsPrepare(req) ==> Word(req, 1) == handle
  }

  lemma PartNames(w: Write)
    requires w.mtu > 5 && w.offset < |w.value| && w.offset <= 0xffff && w.handle <= 0xffff
    ensures Word(Prepare(w), 1) == w.handle
  {
    var req := PrepareShape(w);
    PrepareParsed(w.handle, w.offset, w.value[w.offset..], w.mtu);
  }

  lemma {:induction false} RunNames(ws: seq<Write>, mtu: nat, handle: nat, value: seq<byte>, i: nat)
    requires mtu > 5 && mtu - 3 < |value| && handle <= 0xffff && IsEchoRun(ws, mtu, handle, value) && i < |ws|
    ensures Names(ws[i].sent, handle) && ws[i].handle == handle
  {
    hide EchoStep, IsPrepare, Preparing;
    if i == 0 {
      PartNames(Start(mtu, handle, value));
    } else {
      RunNames(ws, mtu, handle, value, i - 1);
      assert Echoed(ws[i - 1], ws[i]);
      StepNames(ws[i - 1]);
    }
  }

  lemma StepNames(w: Write)
    requires Preparing(w) && w.handle <= 0xffff && Names(w.sent, w.handle)
    ensures Names(EchoStep(w).sent, w.handle) && EchoStep(w).handle == w.handle
  {
    var moved := EchoAdvances(w);
    if moved < |w.value| {
      PartNames(w.(offset := moved));
    }
  }

  lemma PartParsed(req: seq<byte>)
    requires IsPrepare(req)
    ensures Parse(req) == PrepareWrite(Word(req, 1), PartOffset(req), PartBytes(req))
  {
  }

  /** The parts are queued, and writing them changes the value of their handle only. */
  lemma {:induction false} PartsQueued(values: map<nat, seq<byte>>, parts: seq<seq<byte>>, handle: nat)
    requires handle in values && Names(parts, handle) && forall req <- parts :: IsPrepare(req)
    ensures var p := ReceivesAll(Peer(values, []), parts);
            p.values == values && Committed(values, p.queue) == values[handle := Applied(parts, values[handle])]
    decreases |parts|
  {
    hide Store, Parse, IsPrepare;
    if parts == [] {
      assert values[handle := values[handle]] == values;
    } else {
      var front, req := parts[..|parts| - 1], parts[|parts| - 1];
      PartsQueued(values, front, handle);
      assert IsPrepare(req);
      PartParsed(req);
      PartLong(req);
      var queue := ReceivesAll(Peer(values, []), front).queue;
      assert (queue + [Parse(req)])[..|queue|] == queue;
    }
  }

  lemma PartLong(req: seq<byte>)
    requires IsPrepare(req)
    ensures |req| >= 5
  {
  }

  /** For every length and whatever the MTU: once the procedure is over, a peer that goes by the PDUs alone holds
      the value at the handle - exactly the value after a single request, and in front of what a longer earlier
      value had behind it after prepared parts - and all its other values are what they were. */
  lemma WriteDelivers(ws: seq<Write>, mtu: nat, handle: nat, value: seq<byte>, values: map<nat, seq<byte>>)
    requires mtu > 5 && handle <= 0xffff && handle in values && IsEchoRun(ws, mtu, handle, value)
    requires |value| > mtu - 3 ==> ws[|ws| - 1].freed
    ensures var held := if |value| <= mtu - 3 then value
                        else value + (if |value| < |values[handle]| then values[handle][|value|..] else []);
            ReceivesAll(Peer(values, []), ws[|ws| - 1].sent) == Peer(values[handle := held], [])
  {
    var end := ws[|ws| - 1];
    if |value| <= mtu - 3 {
      SingleWrite(ws, mtu, handle, value, values);
    } else {
      var parts := PartsBring(ws, mtu, handle, value, values[handle]);
      RunNames(ws, mtu, handle, value, |ws| - 1);
      PartsPrepare(ws, mtu, handle, value, parts);
      PartsQueued(values, parts, handle);
      assert end.sent[..|end.sent| - 1] == parts;
      assert value[..|value|] == value;
    }
  }

  lemma SingleWrite(ws: seq<Write>, mtu: nat, handle: nat, value: seq<byte>, values: map<nat, seq<byte>>)
    requires mtu > 5 && handle <= 0xffff && handle in values && IsEchoRun(ws, mtu, handle, value)
    requires |value| <= mtu - 3
    ensures ReceivesAll(Peer(values, []), ws[|ws| - 1].sent) == Peer(values[handle := value], [])
  {
    var w := ws[0];
    WriteParsed(handle, value, mtu);
    assert w.sent == [WriteReq(handle, value, mtu)];
    assert !IsPrepare(w.sent[0]) && w.sent[0] in w.sent;
    assert |ws| > 1 ==> Echoed(ws[0], ws[1]);
    assert w.sent[..0] == [];
  }

  lemma PartsPrepare(ws: seq<Write>, mtu: nat, handle: nat, value: seq<byte>, parts: seq<seq<byte>>)
    requires mtu > 5 && mtu - 3 < |value| && IsEchoRun(ws, mtu, handle, value) && parts != []
    requires ws[|ws| - 1].freed && ws[|ws| - 1].sent == parts + [ExecWriteReq(WRITE_ALL_PREP_WRITES)]
    ensures forall req <- parts :: IsPrepare(req)
  {
    RunPrepares(ws, mtu, handle, value, |ws| - 1);
    var k := |ws| - 1;
    StartTiles(mtu, handle, value);
    RunPrepares(ws, mtu, handle, value, k - 1);
    assert Echoed(ws[k - 1], ws[k]);
    var next := PreparingStep(ws[k - 1]);
    assert next.sent[..|ws[k - 1].sent|] == parts;
  }

  lemma OneMoreEcho(ws: seq<Write>, mtu: nat, handle: nat, value: seq<byte>)
    requires mtu > 5 && IsEchoRun(ws, mtu, handle, value) && Preparing(ws[|ws| - 1])
    ensures IsEchoRun(ws + [EchoStep(ws[|ws| - 1])], mtu, handle, value)
  {
    var run := ws + [EchoStep(ws[|ws| - 1])];
    forall i, j | 0 <= i && j == i + 1 < |run| ensures Echoed(run[i], run[j]) {
      assert run[i] == ws[i];
      if j < |ws| {
        assert Echoed(ws[i], ws[j]);
      }
    }
  }

  lemma {:induction false} Finish(ws: seq<Write>, mtu: nat, handle: nat, value: seq<byte>) returns (run: seq<Write>)
    requires mtu > 5 && mtu - 3 < |value| <= 0xffff && IsEchoRun(ws, mtu, handle, value)
    ensures IsEchoRun(run, mtu, handle, value) && run[|run| - 1].freed
    decreases 0x1_0000 - |ws|
  {
    RunPrepares(ws, mtu, handle, value, |ws| - 1);
    run := ws;
    if !ws[|ws| - 1].freed {
      OneMoreEcho(ws, mtu, handle, value);
      run := Finish(ws + [EchoStep(ws[|ws| - 1])], mtu, handle, value);
    }
  }

  /** The execute request is reached, within as many parts as the value has bytes, exactly for values whose
      length fits the 16-bit offset. */
  lemma ExecutesIff(mtu: nat, handle: nat, value: seq<byte>)
    requires mtu > 5 && |value| > mtu - 3
    ensures (exists ws: seq<Write> :: IsEchoRun(ws, mtu, handle, value) && ws[|ws| - 1].freed) <==> |value| <= 0xffff
    ensures |value| <= 0xffff ==> forall ws: seq<Write> :: IsEchoRun(ws, mtu, handle, value) ==> |ws| <= |value| + 1
  {
    hide Echoed;
    if |value| <= 0xffff {
      var run := Finish([Start(mtu, handle, value)], mtu, handle, value);
    }
    forall ws: seq<Write> | IsEchoRun(ws, mtu, handle, value)
      ensures if |value| <= 0xffff then |ws| <= |value| + 1 else !ws[|ws| - 1].freed
    {
      RunPrepares(ws, mtu, handle, value, |ws| - 1);
    }
  }

  /** An error after any number of echoed parts reaches the user once, and no execute is ever sent. */
  lemma ErrorStopsWrite(ws: seq<Write>, mtu: nat, handle: nat, value: seq<byte>, status: byte, rpdu: seq<byte>)
    requires mtu > 5 && |value| > mtu - 3 && status != 0
    requires IsEchoRun(ws, mtu, handle, value) && !ws[|ws| - 1].freed
    ensures var w := ws[|ws| - 1];
            && w.mtu >= 5
            && var end := Callback(w, status, rpdu);
               end.sent == w.sent && end.statuses == [status] && forall req <- end.sent :: IsPrepare(req)
  {
    RunPrepares(ws, mtu, handle, value, |ws| - 1);
  }
}
