/** Characteristic discovery: the paged procedure behind `gatt_discover_char`. */
module CharDiscovery {
  import opened Bytes
  import opened AttDefs
  import opened AttCodec
  import opened AttRequests
  import opened AttUuid
  import opened Paging

  /** A characteristic declaration of the peer; `uuid` is its 2 or 16 bytes on the air. */
  datatype Declaration = Declaration(handle: nat, properties: byte, valueHandle: nat, uuid: seq<byte>)

  /** `struct gatt_char`, with the UUID widened to 16 bytes. */
  datatype Char = Char(handle: nat, properties: byte, valueHandle: nat, wide: seq<byte>)

  function CharOf(c: Declaration): Char {
    Char(c.handle, c.properties, c.valueHandle, Wide(c.uuid))
  }

  /** `dc->uuid`: no filter, or the widened UUID to look for. */
  predicate Wanted(filter: Option<seq<byte>>, wide: seq<byte>) {
    filter == None || filter.value == wide
  }

  /** The characteristics a caller asks for: all, or those with one UUID. */
  function CharsOf(t: seq<Declaration>, filter: Option<seq<byte>>): seq<Char> {
    if t == [] then []
    else (if filter.Some? && filter.value != Wide(t[0].uuid) then [] else [CharOf(t[0])]) + CharsOf(t[1..], filter)
  }

  // ---------------------------------------------------------------- the callback

  function ParseEntry(e: seq<byte>): Char
    requires |e| >= 5
  {
    Char(FromLE16(e), e[2], FromLE16(e[3..]),
         if |e| == 7 then Widen(e[5..]) else if |e| >= 21 then e[5..21] else [])
  }

  function ParseEntries(es: seq<seq<byte>>, filter: Option<seq<byte>>): seq<Char>
    requires forall i :: 0 <= i < |es| ==> |es[i]| >= 5
  {
    if es == [] then []
    else (if Wanted(filter, ParseEntry(es[0]).wide) then [ParseEntry(es[0])] else []) + ParseEntries(es[1..], filter)
  }

  function LastHandle(es: seq<seq<byte>>): nat
    requires forall i :: 0 <= i < |es| ==> |es[i]| >= 2
  {
    if es == [] then 0 else FromLE16(es[|es| - 1])
  }

  /** A response whose entries hold a 16-bit or at least a whole 128-bit UUID. */
  predicate Readable(pdu: seq<byte>) {
    |pdu| >= 2 && (pdu[0] == OP_READ_BY_TYPE_RESP ==> pdu[1] == 7 || pdu[1] >= 21)
  }

  /** The common exit: an error is reported only if nothing was found. */
  function Done(found: seq<Char>, err: byte): Discovery<Char> {
    Finished(found, if found != [] then 0 else err)
  }

  /** The early stop: nothing is asked for above a declaration whose value would be the last handle. */
  function AfterFound(found: seq<Char>, last: nat, end: nat): Discovery<Char> {
    if last != 0 && last + 1 < end then Discovery(found, Some(last + 1), None)
    else Done(found, ECODE_ATTR_NOT_FOUND)
  }

  /** `char_discovered_cb`. */
  function Callback(filter: Option<seq<byte>>, end: nat, d: Discovery<Char>, status: byte, pdu: seq<byte>)
    : Discovery<Char>
    requires status == 0 ==> Readable(pdu)
  {
    if status != 0 then Done(d.found, status)
    else
      match DecList(OP_READ_BY_TYPE_RESP, pdu)
      case None => Done(d.found, ECODE_IO)
      case Some(list) =>
        AfterFound(d.found + ParseEntries(list.data, filter), LastHandle(list.data), end)
  }

  const CHARAC_UUID := 0x2803

  /** The request for the declarations from `start` on. */
  function CharReq(start: nat, end: nat): seq<byte> {
    ReadByTypeReq(start, end, CHARAC_UUID)
  }

  /** The PDU that goes out when a request is. */
  function Asked(d: Discovery<Char>, end: nat): seq<seq<byte>> {
    if d.next == None then [] else [CharReq(d.next.value, end)]
  }

  /** `struct discover_char`, with the PDUs handed to the engine. */
  class DiscoverChar {
    const filter: Option<seq<byte>>
    const end: nat
    var found: seq<Char>
    var next: Option<nat>
    var outcome: Option<Outcome<Char>>
    var sent: seq<seq<byte>>

    ghost function View(): Discovery<Char>
      reads this
    {
      Discovery(found, next, outcome)
    }

    /** `gatt_discover_char`. */
    constructor (start: nat, end: nat, filter: Option<seq<byte>>)
      ensures View() == Discovery([], Some(start), None) && this.end == end && this.filter == filter
      ensures sent == Asked(View(), end)
    {
      this.filter, this.end := filter, end;
      found, next, outcome, sent := [], Some(start), None, [CharReq(start, end)];
    }

    method Finish(err: byte)
      modifies `next, `outcome
      ensures View() == Done(old(found), err)
    {
      next, outcome := None, Some(Outcome(if found != [] then 0 else err, found));
    }

    /** The loop over the decoded entries. */
    method Collect(data: seq<seq<byte>>) returns (last: nat)
      requires forall i :: 0 <= i < |data| ==> |data[i]| >= 7
      modifies `found
      ensures found == old(found) + ParseEntries(data, filter)
      ensures last == LastHandle(data)
    {
      last := 0;
      assert data[0..] == data;
      for i := 0 to |data|
        invariant found + ParseEntries(data[i..], filter) == old(found) + ParseEntries(data, filter)
        invariant last == if i == 0 then 0 else FromLE16(data[i - 1])
      {
        var value := data[i];
        var chars := ParseEntry(value);
        assert data[i..][1..] == data[i + 1..];
        last := FromLE16(value);
        if Wanted(filter, chars.wide) {
          Assoc(found, [chars], ParseEntries(data[i + 1..], filter));
          found := found + [chars];
        }
      }
      assert data[|data|..] == [] && found + [] == found;
    }

    method CharDiscoveredCb(status: byte, pdu: seq<byte>)
      requires status == 0 ==> Readable(pdu)
      modifies this
      ensures View() == Callback(filter, end, old(View()), status, pdu)
      ensures sent == old(sent) + Asked(View(), end)
    {
      if status != 0 {
        Finish(status);
        return;
      }
      var list := DecReadByTypeResp(pdu);
      if list == None {
        Finish(ECODE_IO);
        return;
      }
      var last := Collect(list.value.data);
      if last != 0 && last + 1 < end {
        next, outcome := Some(last + 1), None;
        sent := sent + [CharReq(last + 1, end)];
        return;
      }
      Finish(ECODE_ATTR_NOT_FOUND);
    }
  }

  // ---------------------------------------------------------------- the peer

  /** Declarations in handle order, each with its value above it and inside the range that ends at `end`. */
  ghost predicate ValidTable(t: seq<Declaration>, end: nat) {
    && end <= 0xffff
    && (forall i :: 0 <= i < |t| ==> ValidDeclaration(t[i], end))
    && forall i, j :: 0 <= i < j < |t| ==> t[i].handle < t[j].handle
  }

  predicate ValidDeclaration(c: Declaration, end: nat) {
    1 <= c.handle < c.valueHandle <= end && (|c.uuid| == 2 || |c.uuid| == 16)
  }

  function HandleOf(x: Declaration): nat {
    x.handle
  }

  function UuidOf(x: Declaration): seq<byte> {
    x.uuid
  }

  function EntryOf(c: Declaration): (e: seq<byte>)
    ensures |e| == 5 + |c.uuid|
  {
    LE16(c.handle) + [c.properties] + LE16(c.valueHandle) + c.uuid
  }

  /** What is seen of a page of declarations with UUIDs of `width` bytes. */
  function PagePdu(page: seq<Declaration>, width: nat): seq<byte>
    requires width <= 16
  {
    Seen(ListPdu(OP_READ_BY_TYPE_RESP, 5 + width, EntriesOf(page, EntryOf)))
  }

  /** What a conforming server answers with the first of these declarations, and what the callback makes of it. */
  function CharRows(rest: seq<Declaration>, filter: Option<seq<byte>>, end: nat, wanted: nat, mtu: nat,
                    d: Discovery<Char>): Discovery<Char>
    requires (forall i :: 0 <= i < |rest| ==> |rest[i].uuid| == 2 || |rest[i].uuid| == 16) && mtu >= 23
  {
    if rest == [] then Callback(filter, end, d, ECODE_ATTR_NOT_FOUND, [])
    else Callback(filter, end, d, 0, PagePdu(Page(rest, UuidOf, 5, wanted, mtu), |rest[0].uuid|))
  }

  /** A conforming server on the declarations of the range, and the callback on its response. */
  function CharStep(t: seq<Declaration>, filter: Option<seq<byte>>, end: nat, choose: nat -> nat, mtu: nat,
                    d: Discovery<Char>): Discovery<Char>
    requires (forall i :: 0 <= i < |t| ==> |t[i].uuid| == 2 || |t[i].uuid| == 16) && mtu >= 23
  {
    if d.next == None then d
    else CharRows(t[FirstFrom(t, HandleOf, d.next.value)..], filter, end, choose(d.next.value), mtu, d)
  }

  /** The same exchange with a peer that goes by nothing but the PDU it was sent, over all the declarations it has: a
      search for characteristics (0x2803) gets those of its range, anything else is refused. */
  function AskChars(all: seq<Declaration>, filter: Option<seq<byte>>, end: nat, choose: nat -> nat, mtu: nat,
                    d: Discovery<Char>): Discovery<Char>
    requires (forall i :: 0 <= i < |all| ==> |all[i].uuid| == 2 || |all[i].uuid| == 16) && mtu >= 23
  {
    if d.next == None then d
    else
      match Parse(CharReq(d.next.value, end))
      case ReadByType(from, to, kind) =>
        if from == 0 || from > to then Callback(filter, end, d, 0x01, [])
        else if kind != 0x2803 then Callback(filter, end, d, ECODE_ATTR_NOT_FOUND, [])
        else CharRows(Between(all, HandleOf, from, to), filter, end, choose(d.next.value), mtu, d)
      case _ => Callback(filter, end, d, 0x06, [])
  }

  /** The peer's declarations are in handle order, and `t` are those of the range asked for. */
  ghost predicate InRange(all: seq<Declaration>, t: seq<Declaration>, start: nat, end: nat) {
    && 1 <= start <= end && ValidTable(t, end) && t == Between(all, HandleOf, start, end)
    && Ascending(all, HandleOf) && forall i :: 0 <= i < |all| ==> |all[i].uuid| == 2 || |all[i].uuid| == 16
  }

  /** The requests ask for what the procedure means. */
  lemma AskCharsMeans(all: seq<Declaration>, t: seq<Declaration>, filter: Option<seq<byte>>, start: nat, end: nat,
                      choose: nat -> nat, mtu: nat, d: Discovery<Char>)
    requires InRange(all, t, start, end) && mtu >= 23 && (d.next.Some? ==> start <= d.next.value <= end)
    ensures AskChars(all, filter, end, choose, mtu, d) == CharStep(t, filter, end, choose, mtu, d)
  {
    hide Callback, Parse, FirstFrom, CharRows, Between, Ascending;
    if d.next.Some? {
      ReadByTypeParsed(d.next.value, end, 0x2803);
      BetweenFrom(all, HandleOf, start, d.next.value, end);
    }
  }

  // ---------------------------------------------------------------- completeness

  lemma EntryRoundTrip(c: Declaration)
    requires c.handle <= 0xffff && c.valueHandle <= 0xffff && (|c.uuid| == 2 || |c.uuid| == 16)
    ensures ParseEntry(EntryOf(c)) == CharOf(c) && FromLE16(EntryOf(c)) == c.handle
  {
    WidenIsWide(c.uuid);
    var e := EntryOf(c);
    LE16RoundTrip(c.handle, e);
    assert e[3..][..2] == LE16(c.valueHandle);
    LE16RoundTrip(c.valueHandle, e[3..]);
    assert e[5..] == c.uuid;
    assert |e| == 21 ==> e[5..21] == c.uuid;
  }

  lemma {:induction false} EntriesRoundTrip(cs: seq<Declaration>, filter: Option<seq<byte>>, end: nat)
    requires end <= 0xffff && forall i :: 0 <= i < |cs| ==> ValidDeclaration(cs[i], end)
    ensures ParseEntries(EntriesOf(cs, EntryOf), filter) == CharsOf(cs, filter)
    ensures cs != [] ==> LastHandle(EntriesOf(cs, EntryOf)) == cs[|cs| - 1].handle
  {
    if cs != [] {
      EntryRoundTrip(cs[0]);
      EntryRoundTrip(cs[|cs| - 1]);
      EntriesRoundTrip(cs[1..], filter, end);
      assert EntriesOf(cs, EntryOf)[1..] == EntriesOf(cs[1..], EntryOf);
    }
  }

  lemma {:induction false} CharsOfConcat(a: seq<Declaration>, b: seq<Declaration>, filter: Option<seq<byte>>)
    ensures CharsOf(a + b, filter) == CharsOf(a, filter) + CharsOf(b, filter)
  {
    hide Wide, CharOf;
    if a == [] {
      assert a + b == b;
    } else {
      CharsOfConcat(a[1..], b, filter);
      assert (a + b)[1..] == a[1..] + b && (a + b)[0] == a[0];
      Assoc(if filter.Some? && filter.value != Wide(a[0].uuid) then [] else [CharOf(a[0])],
            CharsOf(a[1..], filter), CharsOf(b, filter));
    }
  }

  /** The list holds exactly the wanted declarations below the handle asked for next. */
  ghost predicate CharsSoFar(t: seq<Declaration>, filter: Option<seq<byte>>, d: Discovery<Char>) {
    && d.next.Some? && 1 <= d.next.value <= 0xffff
    && d.found == CharsOf(t[..FirstFrom(t, HandleOf, d.next.value)], filter)
  }

  /** What the callback makes of an encoded page. */
  lemma CharPageCallback(d: Discovery<Char>, page: seq<Declaration>, width: nat, filter: Option<seq<byte>>, end: nat)
    returns (k: nat, next: Discovery<Char>)
    requires page != [] && (width == 2 || width == 16) && end <= 0xffff
    requires forall i :: 0 <= i < |page| ==> ValidDeclaration(page[i], end) && |page[i].uuid| == width
    ensures 0 < k <= |page|
    ensures next == Callback(filter, end, d, 0, PagePdu(page, width))
    ensures next == AfterFound(d.found + CharsOf(page[..k], filter), page[k - 1].handle, end)
  {
    hide Callback, CharsOf, AfterFound, DecList, EntryOf;
    var es := EntriesOf(page, EntryOf);
    assert Uniform(es, 5 + width);
    k := DecSeenListPdu(OP_READ_BY_TYPE_RESP, 5 + width, es);
    assert es[..k] == EntriesOf(page[..k], EntryOf);
    next := SeenCallback(d, page[..k], PagePdu(page, width), width, filter, end);
  }

  lemma SeenCallback(d: Discovery<Char>, seen: seq<Declaration>, pdu: seq<byte>, width: nat,
                     filter: Option<seq<byte>>, end: nat)
    returns (next: Discovery<Char>)
    requires seen != [] && end <= 0xffff && width <= 16 && Readable(pdu)
    requires forall i :: 0 <= i < |seen| ==> ValidDeclaration(seen[i], end)
    requires DecList(OP_READ_BY_TYPE_RESP, pdu) == Some(DataList(5 + width, EntriesOf(seen, EntryOf)))
    ensures next == Callback(filter, end, d, 0, pdu)
    ensures next == AfterFound(d.found + CharsOf(seen, filter), seen[|seen| - 1].handle, end)
  {
    hide DecList, EntriesOf, EntryOf, ParseEntries, CharsOf, LastHandle, AfterFound;
    EntriesRoundTrip(seen, filter, end);
    next := Callback(filter, end, d, 0, pdu);
  }

  /** What the server sends for a request that some declaration answers. */
  lemma CharServed(t: seq<Declaration>, filter: Option<seq<byte>>, end: nat, choose: nat -> nat, mtu: nat,
                   d: Discovery<Char>)
    returns (page: seq<Declaration>)
    requires ValidTable(t, end) && mtu >= 23 && d.next.Some? && FirstFrom(t, HandleOf, d.next.value) < |t|
    ensures var i := FirstFrom(t, HandleOf, d.next.value);
            && page != [] && i + |page| <= |t| && page == t[i..i + |page|]
            && (|t[i].uuid| == 2 || |t[i].uuid| == 16)
            && (forall k :: 0 <= k < |page| ==> ValidDeclaration(page[k], end) && |page[k].uuid| == |t[i].uuid|)
            && CharStep(t, filter, end, choose, mtu, d) ==
               Callback(filter, end, d, 0, PagePdu(page, |t[i].uuid|))
  {
    hide Callback, PagePdu, FirstFrom;
    var i := FirstFrom(t, HandleOf, d.next.value);
    assert ValidDeclaration(t[i], end);
    page := Page(t[i..], UuidOf, 5, choose(d.next.value), mtu);
    assert page == t[i..i + |page|];
    forall k | 0 <= k < |page| ensures page[k] == t[i + k] && ValidDeclaration(page[k], end) {}
  }

  /** One request and its response: of the declarations the server sends the first `k` are seen and taken. */
  lemma CharExchange(t: seq<Declaration>, filter: Option<seq<byte>>, end: nat, choose: nat -> nat, mtu: nat,
                     d: Discovery<Char>)
    returns (page: seq<Declaration>, k: nat, next: Discovery<Char>)
    requires ValidTable(t, end) && mtu >= 23 && d.next.Some? && FirstFrom(t, HandleOf, d.next.value) < |t|
    ensures var i := FirstFrom(t, HandleOf, d.next.value);
            0 < k <= |page| && i + |page| <= |t| && page == t[i..i + |page|]
    ensures next == CharStep(t, filter, end, choose, mtu, d)
    ensures next == AfterFound(d.found + CharsOf(page[..k], filter), page[k - 1].handle, end)
  {
    hide CharStep, Callback, FirstFrom, CharsOf, AfterFound, PagePdu;
    page := CharServed(t, filter, end, choose, mtu, d);
    k, next := CharPageCallback(d, page, |t[FirstFrom(t, HandleOf, d.next.value)].uuid|, filter, end);
  }

  lemma CharPage(t: seq<Declaration>, filter: Option<seq<byte>>, end: nat, choose: nat -> nat, mtu: nat,
                 d: Discovery<Char>)
    returns (j: nat, next: Discovery<Char>)
    requires ValidTable(t, end) && mtu >= 23 && d.next.Some? && FirstFrom(t, HandleOf, d.next.value) < |t|
    ensures FirstFrom(t, HandleOf, d.next.value) < j <= |t|
    ensures next == CharStep(t, filter, end, choose, mtu, d)
    ensures var i := FirstFrom(t, HandleOf, d.next.value);
            next == AfterFound(d.found + CharsOf(t[i..j], filter), t[j - 1].handle, end)
  {
    hide CharStep, CharsOf, AfterFound, FirstFrom, ValidTable;
    var page, k;
    page, k, next := CharExchange(t, filter, end, choose, mtu, d);
    j := FirstFrom(t, HandleOf, d.next.value) + k;
    assert page[..k] == t[FirstFrom(t, HandleOf, d.next.value)..j] && page[k - 1] == t[j - 1];
  }

  lemma PageGrows(t: seq<Declaration>, filter: Option<seq<byte>>, i: nat, j: nat)
    requires i <= j <= |t|
    ensures CharsOf(t[..i], filter) + CharsOf(t[i..j], filter) == CharsOf(t[..j], filter)
  {
    CharsOfConcat(t[..i], t[i..j], filter);
    assert t[..i] + t[i..j] == t[..j];
  }

  /** After a page: if the next handle is still below the end of the range, the rest is asked for from
      there; if not, no declaration is left, because its value would lie outside the range. */
  lemma AfterPage(t: seq<Declaration>, filter: Option<seq<byte>>, end: nat, d: Discovery<Char>, j: nat)
    returns (next: Discovery<Char>)
    requires ValidTable(t, end) && CharsSoFar(t, filter, d) && FirstFrom(t, HandleOf, d.next.value) < j <= |t|
    ensures var i := FirstFrom(t, HandleOf, d.next.value);
            next == AfterFound(d.found + CharsOf(t[i..j], filter), t[j - 1].handle, end)
    ensures || next == Done(CharsOf(t, filter), ECODE_ATTR_NOT_FOUND)
            || (CharsSoFar(t, filter, next) && d.next.value < next.next.value < end)
  {
    hide CharsOf, FirstFrom;
    var i, last := FirstFrom(t, HandleOf, d.next.value), t[j - 1].handle;
    PageGrows(t, filter, i, j);
    assert last >= t[i].handle && 1 <= last <= 0xffff by {
      assert ValidDeclaration(t[j - 1], end);
    }
    NextFrom(t, end, j);
    if last + 1 < end {
      next := Discovery(CharsOf(t[..j], filter), Some(last + 1), None);
    } else {
      next := Done(CharsOf(t, filter), ECODE_ATTR_NOT_FOUND);
    }
  }

  lemma NextFrom(t: seq<Declaration>, end: nat, j: nat)
    requires ValidTable(t, end) && 0 < j <= |t|
    ensures FirstFrom(t, HandleOf, t[j - 1].handle + 1) == j
    ensures t[j - 1].handle + 1 >= end ==> t[..j] == t
  {
    var i := FirstFrom(t, HandleOf, t[j - 1].handle + 1);
    assert i < |t| ==> t[i].handle > t[j - 1].handle;
    assert j < |t| ==> t[j - 1].handle < t[j].handle && ValidDeclaration(t[j], end);
  }

  lemma CharEnd(t: seq<Declaration>, filter: Option<seq<byte>>, end: nat, choose: nat -> nat, mtu: nat,
                d: Discovery<Char>)
    requires ValidTable(t, end) && mtu >= 23 && CharsSoFar(t, filter, d) && FirstFrom(t, HandleOf, d.next.value) == |t|
    ensures CharStep(t, filter, end, choose, mtu, d) == Done(CharsOf(t, filter), ECODE_ATTR_NOT_FOUND)
  {
    assert t[|t|..] == [] && t[..|t|] == t;
  }

  lemma CharProceeds(t: seq<Declaration>, filter: Option<seq<byte>>, end: nat, choose: nat -> nat, mtu: nat,
                     d: Discovery<Char>)
    returns (next: Discovery<Char>)
    requires ValidTable(t, end) && mtu >= 23 && CharsSoFar(t, filter, d)
    ensures next == CharStep(t, filter, end, choose, mtu, d)
    ensures || next == Done(CharsOf(t, filter), ECODE_ATTR_NOT_FOUND)
            || (CharsSoFar(t, filter, next) && d.next.value < next.next.value < end)
  {
    if FirstFrom(t, HandleOf, d.next.value) == |t| {
      CharEnd(t, filter, end, choose, mtu, d);
      next := Done(CharsOf(t, filter), ECODE_ATTR_NOT_FOUND);
    } else {
      var j;
      j, next := CharPage(t, filter, end, choose, mtu, d);
      next := AfterPage(t, filter, end, d, j);
    }
  }

  function CharStart(start: nat): Discovery<Char> {
    Discovery([], Some(start), None)
  }

  /** Under way inside the range. */
  ghost predicate CharsUnderway(t: seq<Declaration>, filter: Option<seq<byte>>, start: nat, end: nat,
                                d: Discovery<Char>) {
    CharsSoFar(t, filter, d) && start <= d.next.value <= end
  }

  lemma CharsGoOn(all: seq<Declaration>, filter: Option<seq<byte>>, start: nat, end: nat, choose: nat -> nat, mtu: nat,
                  d: Discovery<Char>)
    returns (next: Discovery<Char>)
    requires var t := Between(all, HandleOf, start, end);
             InRange(all, t, start, end) && CharsUnderway(t, filter, start, end, d)
    requires mtu >= 23
    ensures var t := Between(all, HandleOf, start, end);
            && next == AskChars(all, filter, end, choose, mtu, d)
            && (|| next == Done(CharsOf(t, filter), ECODE_ATTR_NOT_FOUND)
                || (CharsUnderway(t, filter, start, end, next) && next.next.value > d.next.value))
  {
    hide AskChars, CharStep, CharsOf, FirstFrom;
    var t := Between(all, HandleOf, start, end);
    AskCharsMeans(all, t, filter, start, end, choose, mtu, d);
    next := CharProceeds(t, filter, end, choose, mtu, d);
  }

  lemma NothingBefore(t: seq<Declaration>, filter: Option<seq<byte>>, start: nat, end: nat)
    requires 1 <= start <= end <= 0xffff && forall i :: 0 <= i < |t| ==> t[i].handle >= start
    ensures CharsUnderway(t, filter, start, end, CharStart(start))
  {
  }

  /** For every peer and every choice of page sizes, characteristic discovery ends within 65535 responses
      with exactly the wanted characteristics of the range in order, and with error 0 if and only if there
      is one. */
  lemma CharsDiscovered(all: seq<Declaration>, filter: Option<seq<byte>>, start: nat, end: nat, choose: nat -> nat,
                        mtu: nat, n: nat)
    requires InRange(all, Between(all, HandleOf, start, end), start, end) && mtu >= 23 && n >= 0xffff
    ensures var chars := CharsOf(Between(all, HandleOf, start, end), filter);
            Iterate(d => AskChars(all, filter, end, choose, mtu, d), CharStart(start), n).outcome ==
            Some(Outcome(if chars == [] then ECODE_ATTR_NOT_FOUND else 0, chars))
  {
    hide AskChars, CharsOf;
    var t := Between(all, HandleOf, start, end);
    var step := (d: Discovery<Char>) => AskChars(all, filter, end, choose, mtu, d);
    var good := (d: Discovery<Char>) => CharsUnderway(t, filter, start, end, d);
    var chars := CharsOf(t, filter);
    var goal := Outcome(if chars == [] then ECODE_ATTR_NOT_FOUND else 0, chars);
    forall d | good(d) ensures Proceeds(step, good, goal, d) {
      var next := CharsGoOn(all, filter, start, end, choose, mtu, d);
    }
    NothingBefore(t, filter, start, end);
    IterateEnds(step, good, goal, CharStart(start), n);
  }

  /** What the callback makes of an error. */
  function CharReport(filter: Option<seq<byte>>, end: nat, d: Discovery<Char>, status: byte): Discovery<Char> {
    if status == 0 then d else Callback(filter, end, d, status, [])
  }

  /** What was found in front of the handle asked for, and whether anything is left from there on. */
  lemma Divided(t: seq<Declaration>, filter: Option<seq<byte>>, h: nat)
    ensures var i := FirstFrom(t, HandleOf, h);
            && CharsOf(t, filter) == CharsOf(t[..i], filter) + CharsOf(t[i..], filter)
            && (CharsOf(t[..i], filter) == CharsOf(t, filter) <==> CharsOf(t[i..], filter) == [])
  {
    var i := FirstFrom(t, HandleOf, h);
    CharsOfConcat(t[..i], t[i..], filter);
    assert t[..i] + t[i..] == t;
  }

  /** What is reported when the request that is out fails. */
  ghost predicate CutOff(t: seq<Declaration>, filter: Option<seq<byte>>, h: nat, status: byte, outcome: Outcome<Char>) {
    var i := FirstFrom(t, HandleOf, h);
    var below := CharsOf(t[..i], filter);
    && status != 0 && outcome == Outcome(if below == [] then status else 0, below)
    && (outcome.err == 0 && outcome.list != CharsOf(t, filter) <==> below != [] && CharsOf(t[i..], filter) != [])
  }

  lemma ReportCutsOff(t: seq<Declaration>, filter: Option<seq<byte>>, end: nat, d: Discovery<Char>, status: byte)
    requires CharsSoFar(t, filter, d) && status != 0
    ensures var r := CharReport(filter, end, d, status);
            r.next == None && r.outcome.Some? && CutOff(t, filter, d.next.value, status, r.outcome.value)
  {
    Divided(t, filter, d.next.value);
  }

  /** Whichever requests fail, by an error response or a timeout: the first one that does ends the procedure
      with what lies below the handle it asked for, and its error is reported only if that is nothing.  So a
      part of the characteristics is passed off as all of them if and only if the first request to fail has
      wanted characteristics both below it and from it on. */
  lemma CharFailureReported(all: seq<Declaration>, filter: Option<seq<byte>>, start: nat, end: nat,
                            choose: nat -> nat, fail: nat -> byte, mtu: nat, n: nat)
    requires InRange(all, Between(all, HandleOf, start, end), start, end) && mtu >= 23 && n >= 0xffff
    ensures var step := (d: Discovery<Char>) => AskChars(all, filter, end, choose, mtu, d);
            var report := (d: Discovery<Char>, status: byte) => CharReport(filter, end, d, status);
            var t := Between(all, HandleOf, start, end);
            var outcome, chars := Iterate(Failing(step, fail, report), CharStart(start), n).outcome, CharsOf(t, filter);
            && outcome.Some?
            && match FirstFailure(step, fail, CharStart(start), n)
               case None => outcome.value == Outcome(if chars == [] then ECODE_ATTR_NOT_FOUND else 0, chars)
               case Some(h) => CutOff(t, filter, h, fail(h), outcome.value)
  {
    hide AskChars, CharsOf, FirstFrom, CharReport, CutOff, Between;
    var t := Between(all, HandleOf, start, end);
    var step := (d: Discovery<Char>) => AskChars(all, filter, end, choose, mtu, d);
    var report := (d: Discovery<Char>, status: byte) => CharReport(filter, end, d, status);
    var good := (d: Discovery<Char>) => CharsUnderway(t, filter, start, end, d);
    var chars := CharsOf(t, filter);
    var goal := Outcome(if chars == [] then ECODE_ATTR_NOT_FOUND else 0, chars);
    forall d | good(d) ensures Proceeds(step, good, goal, d) {
      var next := CharsGoOn(all, filter, start, end, choose, mtu, d);
    }
    forall d, status: byte | good(d) && status != 0 ensures report(d, status).next == None {
      ReportCutsOff(t, filter, end, d, status);
    }
    RangeAbove(all, start, end);
    NothingBefore(t, filter, start, end);
    FailureEnds(step, fail, report, good, goal, CharStart(start), n);
    var stop := IterateUntil(step, fail, CharStart(start), n);
    if stop.next.Some? {
      ReportCutsOff(t, filter, end, stop, fail(stop.next.value));
    }
  }

  lemma RangeAbove(all: seq<Declaration>, start: nat, end: nat)
    ensures var t := Between(all, HandleOf, start, end);
            forall i :: 0 <= i < |t| ==> t[i].handle >= start
  {
  }
}
