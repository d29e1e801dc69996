/** Primary service discovery: the paged procedures behind `gatt_discover_primary`. */
module PrimaryDiscovery {
  import opened Bytes
  import opened AttDefs
  import opened AttCodec
  import opened AttRequests
  import opened AttUuid
  import opened Paging

  /** A service of the peer; `uuid` is its 2 or 16 bytes on the air. */
  datatype Service = Service(start: nat, end: nat, uuid: seq<byte>)

  /** `struct gatt_primary`, with the UUID widened to 16 bytes. */
  datatype Primary = Primary(start: nat, end: nat, wide: seq<byte>)

  /** What the user should be given for it. */
  function PrimaryOf(s: Service): Primary {
    Primary(s.start, s.end, Wide(s.uuid))
  }

  function PrimariesOf(ss: seq<Service>): (r: seq<Primary>)
    ensures |r| == |ss|
  {
    seq(|ss|, i requires 0 <= i < |ss| => PrimaryOf(ss[i]))
  }

  function ErrorOf(status: byte): byte {
    if status == ECODE_ATTR_NOT_FOUND then 0 else status
  }

  // ---------------------------------------------------------------- all services

  /** One entry of the attribute data list; an entry of another length is skipped. */
  function Entry(e: seq<byte>): seq<Primary>
    requires |e| >= 4
  {
    if |e| == 6 || |e| == 20 then [Primary(FromLE16(e), FromLE16(e[2..]), Widen(e[4..]))] else []
  }

  function Entries(es: seq<seq<byte>>): seq<Primary>
    requires forall i :: 0 <= i < |es| ==> |es[i]| >= 4
  {
    if es == [] then [] else Entry(es[0]) + Entries(es[1..])
  }

  /** The variable `end` after the loop. */
  function LastEnd(es: seq<seq<byte>>): nat
    requires forall i :: 0 <= i < |es| ==> |es[i]| >= 4
  {
    if es == [] then 0 else FromLE16(es[|es| - 1][2..])
  }

  /** A response whose entries are long enough for the two handles that are read from each. */
  predicate Readable(opcode: byte, pdu: seq<byte>, n: nat) {
    |pdu| >= 2 && (pdu[0] == opcode ==> pdu[1] as int >= n)
  }

  /** More is asked for from past the last service, unless that ends the handle range. */
  function AfterServices<T>(found: seq<T>, end: nat): Discovery<T> {
    if end != 0xffff then Discovery(found, Some(end + 1), None) else Finished(found, 0)
  }

  /** `primary_all_cb`. */
  function AllCallback(d: Discovery<Primary>, status: byte, pdu: seq<byte>): Discovery<Primary>
    requires status == 0 ==> Readable(OP_READ_BY_GROUP_RESP, pdu, 4)
  {
    if status != 0 then Finished(d.found, ErrorOf(status))
    else
      match DecList(OP_READ_BY_GROUP_RESP, pdu)
      case None => Finished(d.found, ECODE_IO)
      case Some(list) => AfterServices(d.found + Entries(list.data), LastEnd(list.data))
  }

  // ---------------------------------------------------------------- services by UUID

  /** `primary_by_uuid_cb`. */
  function UuidCallback(d: Discovery<Range>, status: byte, pdu: seq<byte>): Discovery<Range> {
    if status != 0 then Finished(d.found, ErrorOf(status))
    else
      var ranges := DecFindByType(pdu);
      if ranges == [] then Finished(d.found, 0)
      else AfterServices(d.found + ranges, ranges[|ranges| - 1].end)
  }

  // ---------------------------------------------------------------- the requests

  const PRIM_SVC_UUID := 0x2800

  /** `encode_discover_primary`: from `start` to the end of the handle range, for all services or those with one
      UUID. */
  function PrimaryReq(start: nat, uuid: Option<seq<byte>>, mtu: nat): seq<byte>
    requires mtu >= 23
  {
    if uuid == None then ReadByGrpReq(start, 0xffff, PRIM_SVC_UUID)
    else FindByTypeReq(start, 0xffff, PRIM_SVC_UUID, uuid.value, mtu)
  }

  /** The PDU that goes out when a request is. */
  function Asked<T>(d: Discovery<T>, uuid: Option<seq<byte>>, mtu: nat): seq<seq<byte>>
    requires mtu >= 23
  {
    if d.next == None then [] else [PrimaryReq(d.next.value, uuid, mtu)]
  }

  /** `struct discover_primary` as the callbacks update it, with the PDUs handed to the engine. */
  class DiscoverPrimary<T> {
    const uuid: Option<seq<byte>>
    const mtu: nat
    var found: seq<T>
    var next: Option<nat>
    var outcome: Option<Outcome<T>>
    var sent: seq<seq<byte>>

    ghost function View(): Discovery<T>
      reads this
    {
      Discovery(found, next, outcome)
    }

    /** `gatt_discover_primary`: the first request starts at handle 1. */
    constructor (uuid: Option<seq<byte>>, mtu: nat)
      requires mtu >= 23
      ensures View() == Discovery([], Some(1), None) && this.uuid == uuid && this.mtu == mtu
      ensures sent == Asked(View(), uuid, mtu)
    {
      this.uuid, this.mtu := uuid, mtu;
      found, next, outcome, sent := [], Some(1), None, [PrimaryReq(1, uuid, mtu)];
    }

    method Finish(err: byte)
      modifies `next, `outcome
      ensures View() == Finished(old(found), err)
    {
      next, outcome := None, Some(Outcome(err, found));
    }

    method Ask(start: nat)
      requires mtu >= 23
      modifies `next, `outcome, `sent
      ensures View() == Discovery(old(found), Some(start), None)
      ensures sent == old(sent) + [PrimaryReq(start, uuid, mtu)]
    {
      next, outcome := Some(start), None;
      sent := sent + [PrimaryReq(start, uuid, mtu)];
    }
  }

  /** The loop of `primary_all_cb` over the decoded entries. */
  method CollectEntries(dp: DiscoverPrimary<Primary>, data: seq<seq<byte>>) returns (end: nat)
    requires forall i :: 0 <= i < |data| ==> |data[i]| >= 4
    modifies dp`found
    ensures dp.found == old(dp.found) + Entries(data) && end == LastEnd(data)
  {
    end := 0;
    assert data[0..] == data;
    for i := 0 to |data|
      invariant dp.found + Entries(data[i..]) == old(dp.found) + Entries(data)
      invariant end == if i == 0 then 0 else FromLE16(data[i - 1][2..])
    {
      var e := data[i];
      assert data[i..][1..] == data[i + 1..];
      Assoc(dp.found, Entry(e), Entries(data[i + 1..]));
      end := FromLE16(e[2..]);
      if |e| == 6 || |e| == 20 {
        dp.found := dp.found + [Primary(FromLE16(e), end, Widen(e[4..]))];
      } else {
        assert dp.found + Entry(e) == dp.found;
      }
    }
    assert data[|data|..] == [] && dp.found + [] == dp.found;
  }

  method PrimaryAllCb(dp: DiscoverPrimary<Primary>, status: byte, pdu: seq<byte>)
    requires dp.mtu >= 23 && (status == 0 ==> Readable(OP_READ_BY_GROUP_RESP, pdu, 4))
    modifies dp
    ensures dp.View() == AllCallback(old(dp.View()), status, pdu)
    ensures dp.sent == old(dp.sent) + Asked(dp.View(), dp.uuid, dp.mtu)
  {
    if status != 0 {
      dp.Finish(if status == ECODE_ATTR_NOT_FOUND then 0 else status);
      return;
    }
    var list := DecReadByGrpResp(pdu);
    if list == None {
      dp.Finish(ECODE_IO);
      return;
    }
    var end := CollectEntries(dp, list.value.data);
    if end != 0xffff {
      dp.Ask(end + 1);
      return;
    }
    dp.Finish(0);
  }

  method PrimaryByUuidCb(dp: DiscoverPrimary<Range>, status: byte, pdu: seq<byte>)
    requires dp.mtu >= 23
    modifies dp
    ensures dp.View() == UuidCallback(old(dp.View()), status, pdu)
    ensures dp.sent == old(dp.sent) + Asked(dp.View(), dp.uuid, dp.mtu)
  {
    if status != 0 {
      dp.Finish(if status == ECODE_ATTR_NOT_FOUND then 0 else status);
      return;
    }
    var ranges := DecFindByTypeResp(pdu);
    if ranges == [] {
      dp.Finish(0);
      return;
    }
    dp.found := dp.found + ranges;
    var range := ranges[|ranges| - 1];
    if range.end == 0xffff {
      dp.Finish(0);
      return;
    }
    dp.Ask(range.end + 1);
  }

  // ---------------------------------------------------------------- the peer

  /** Services in handle order, none overlapping another. */
  ghost predicate ValidTable(t: seq<Service>) {
    && (forall i :: 0 <= i < |t| ==> 1 <= t[i].start <= t[i].end <= 0xffff && (|t[i].uuid| == 2 || |t[i].uuid| == 16))
    && forall i, j :: 0 <= i < j < |t| ==> t[i].end < t[j].start
  }

  function StartOf(x: Service): nat {
    x.start
  }

  function UuidOf(x: Service): seq<byte> {
    x.uuid
  }

  function EntryOf(s: Service): (e: seq<byte>)
    ensures |e| == 4 + |s.uuid|
  {
    LE16(s.start) + LE16(s.end) + s.uuid
  }

  /** What is seen of a conforming server's response with the first of these services, `wanted` of them if it can
      be. */
  function ServeRows(rest: seq<Service>, wanted: nat, mtu: nat): (r: (byte, seq<byte>))
    requires (forall i :: 0 <= i < |rest| ==> |rest[i].uuid| <= 16) && mtu >= 23
    ensures r.0 == 0 ==> Readable(OP_READ_BY_GROUP_RESP, r.1, 4)
  {
    if rest == [] then (ECODE_ATTR_NOT_FOUND, [])
    else
      var page := Page(rest, UuidOf, 4, wanted, mtu);
      (0, Seen(ListPdu(OP_READ_BY_GROUP_RESP, 4 + |rest[0].uuid|, EntriesOf(page, EntryOf))))
  }

  /** The same for all services from `start` on; `choose` gives the page size it would like for each start handle. */
  function ServeAll(t: seq<Service>, start: nat, choose: nat -> nat, mtu: nat): (r: (byte, seq<byte>))
    requires (forall i :: 0 <= i < |t| ==> |t[i].uuid| <= 16) && mtu >= 23
    ensures r.0 == 0 ==> Readable(OP_READ_BY_GROUP_RESP, r.1, 4)
  {
    ServeRows(t[FirstFrom(t, StartOf, start)..], choose(start), mtu)
  }

  function RangeOf(s: Service): Range {
    Range(s.start, s.end)
  }

  function RangesFor(ss: seq<Service>): (rs: seq<Range>)
    ensures |rs| == |ss|
  {
    seq(|ss|, i requires 0 <= i < |ss| => RangeOf(ss[i]))
  }

  function Matching(t: seq<Service>, uuid: seq<byte>): seq<Service> {
    if t == [] then []
    else (if t[0].uuid == uuid then [t[0]] else []) + Matching(t[1..], uuid)
  }

  /** At least one service, no more than the PDU holds. */
  function RangePage(rest: seq<Service>, wanted: nat, mtu: nat): (page: seq<Service>)
    requires rest != [] && mtu >= 23
    ensures 0 < |page| <= |rest| && page == rest[..|page|]
  {
    var fit := RangeRoom(|rest|, mtu);
    var k := if wanted < fit then wanted else fit;
    rest[..if k == 0 then 1 else k]
  }

  function ServeRanges(rest: seq<Service>, wanted: nat, mtu: nat): (byte, seq<byte>)
    requires mtu >= 23
  {
    if rest == [] then (ECODE_ATTR_NOT_FOUND, [])
    else (0, Seen([OP_FIND_BY_TYPE_RESP] + RangesBytes(RangesFor(RangePage(rest, wanted, mtu)))))
  }

  /** The same for a request by UUID, over the services that match it. */
  function ServeUuid(t: seq<Service>, start: nat, choose: nat -> nat, mtu: nat): (byte, seq<byte>)
    requires mtu >= 23
  {
    ServeRanges(t[FirstFrom(t, StartOf, start)..], choose(start), mtu)
  }

  // ---------------------------------------------------------------- completeness

  /** One exchange: the request that is out, the server's response, the callback. */
  function AllStep(t: seq<Service>, choose: nat -> nat, mtu: nat, d: Discovery<Primary>): Discovery<Primary>
    requires (forall i :: 0 <= i < |t| ==> |t[i].uuid| <= 16) && mtu >= 23
  {
    if d.next == None then d
    else
      var (status, pdu) := ServeAll(t, d.next.value, choose, mtu);
      AllCallback(d, status, pdu)
  }

  function UuidStep(matching: seq<Service>, choose: nat -> nat, mtu: nat, d: Discovery<Range>): Discovery<Range>
    requires mtu >= 23
  {
    if d.next == None then d
    else
      var (status, pdu) := ServeUuid(matching, d.next.value, choose, mtu);
      UuidCallback(d, status, pdu)
  }

  /** The same exchanges with a peer that goes by nothing but the PDU it was sent: a search for primary services
      (0x2800) gets those of its range, with the UUID it carries if it carries one; anything else is refused. */
  function PeerAll(t: seq<Service>, pdu: seq<byte>, choose: nat -> nat, mtu: nat): (r: (byte, seq<byte>))
    requires (forall i :: 0 <= i < |t| ==> |t[i].uuid| <= 16) && mtu >= 23
    ensures r.0 == 0 ==> Readable(OP_READ_BY_GROUP_RESP, r.1, 4)
  {
    match Parse(pdu)
    case ReadByGroup(start, end, kind) =>
      if start == 0 || start > end then (0x01, [])
      else if kind != 0x2800 then (0x10, [])
      else ServeRows(Between(t, StartOf, start, end), choose(start), mtu)
    case _ => (0x06, [])
  }

  function PeerUuid(t: seq<Service>, pdu: seq<byte>, choose: nat -> nat, mtu: nat): (byte, seq<byte>)
    requires mtu >= 23
  {
    match Parse(pdu)
    case FindByType(start, end, kind, value) =>
      if start == 0 || start > end then (0x01, [])
      else if kind != 0x2800 then (0x10, [])
      else ServeRanges(Between(Matching(t, value), StartOf, start, end), choose(start), mtu)
    case _ => (0x06, [])
  }

  function AskAll(t: seq<Service>, choose: nat -> nat, mtu: nat, d: Discovery<Primary>): Discovery<Primary>
    requires (forall i :: 0 <= i < |t| ==> |t[i].uuid| <= 16) && mtu >= 23
  {
    if d.next == None then d
    else
      var (status, pdu) := PeerAll(t, PrimaryReq(d.next.value, None, mtu), choose, mtu);
      AllCallback(d, status, pdu)
  }

  function AskUuid(t: seq<Service>, uuid: seq<byte>, choose: nat -> nat, mtu: nat, d: Discovery<Range>)
    : Discovery<Range>
    requires mtu >= 23
  {
    if d.next == None then d
    else
      var (status, pdu) := PeerUuid(t, PrimaryReq(d.next.value, Some(uuid), mtu), choose, mtu);
      UuidCallback(d, status, pdu)
  }

  lemma ByStart(t: seq<Service>)
    requires ValidTable(t)
    ensures Ascending(t, StartOf) && forall x <- t :: 1 <= x.start <= 0xffff
  {
  }

  lemma FromStart(t: seq<Service>, start: nat)
    requires ValidTable(t) && 1 <= start
    ensures Between(t, StartOf, start, 0xffff) == t[FirstFrom(t, StartOf, start)..]
  {
    ByStart(t);
    BetweenAll(t, StartOf, 1, 0xffff);
    BetweenFrom(t, StartOf, 1, start, 0xffff);
  }

  /** The requests ask for what the procedure means. */
  lemma AskAllMeans(t: seq<Service>, choose: nat -> nat, mtu: nat, d: Discovery<Primary>)
    requires ValidTable(t) && mtu >= 23 && (d.next.Some? ==> 1 <= d.next.value <= 0xffff)
    ensures AskAll(t, choose, mtu, d) == AllStep(t, choose, mtu, d)
  {
    hide AllCallback, Parse, FirstFrom, ServeRows, Between;
    if d.next.Some? {
      ReadByGroupParsed(d.next.value, 0xffff, 0x2800);
      FromStart(t, d.next.value);
    }
  }

  lemma AskUuidMeans(t: seq<Service>, uuid: seq<byte>, choose: nat -> nat, mtu: nat, d: Discovery<Range>)
    requires ValidTable(Matching(t, uuid)) && mtu >= 23 && |uuid| <= 16
    requires d.next.Some? ==> 1 <= d.next.value <= 0xffff
    ensures AskUuid(t, uuid, choose, mtu, d) == UuidStep(Matching(t, uuid), choose, mtu, d)
  {
    hide UuidCallback, Parse, FirstFrom, ServeRanges, Between, Matching;
    if d.next.Some? {
      FindByTypeParsed(d.next.value, 0xffff, 0x2800, uuid, mtu);
      FromStart(Matching(t, uuid), d.next.value);
    }
  }

  /** Asking from just past a service finds the one after it, and a service that ends the handle range is
      the last. */
  lemma NextFrom(t: seq<Service>, k: nat)
    requires ValidTable(t) && k < |t|
    ensures FirstFrom(t, StartOf, t[k].end + 1) == k + 1
    ensures t[k].end == 0xffff ==> k + 1 == |t|
  {
    var i := FirstFrom(t, StartOf, t[k].end + 1);
    assert i < |t| ==> t[i].start > t[k].end;
    assert k + 1 < |t| ==> t[k].end < t[k + 1].start;
  }

  lemma FirstFromOne(t: seq<Service>)
    requires ValidTable(t)
    ensures FirstFrom(t, StartOf, 1) == 0
  {
    if t != [] {
      assert t[0].start >= 1;
    }
  }

  lemma EntryRoundTrip(s: Service)
    requires s.start <= 0xffff && s.end <= 0xffff && (|s.uuid| == 2 || |s.uuid| == 16)
    ensures Entry(EntryOf(s)) == [PrimaryOf(s)]
    ensures FromLE16(EntryOf(s)[2..]) == s.end
  {
    WidenIsWide(s.uuid);
    var e := EntryOf(s);
    LE16RoundTrip(s.start, e);
    assert e[2..][..2] == LE16(s.end);
    LE16RoundTrip(s.end, e[2..]);
    assert e[4..] == s.uuid;
  }

  lemma {:induction false} EntriesRoundTrip(ss: seq<Service>)
    requires forall i :: 0 <= i < |ss| ==> ss[i].start <= 0xffff && ss[i].end <= 0xffff
    requires forall i :: 0 <= i < |ss| ==> |ss[i].uuid| == 2 || |ss[i].uuid| == 16
    ensures Entries(EntriesOf(ss, EntryOf)) == PrimariesOf(ss)
    ensures ss != [] ==> LastEnd(EntriesOf(ss, EntryOf)) == ss[|ss| - 1].end
  {
    if ss != [] {
      EntryRoundTrip(ss[0]);
      EntryRoundTrip(ss[|ss| - 1]);
      EntriesRoundTrip(ss[1..]);
      assert EntriesOf(ss, EntryOf)[1..] == EntriesOf(ss[1..], EntryOf);
      assert PrimariesOf(ss) == [PrimaryOf(ss[0])] + PrimariesOf(ss[1..]);
    }
  }

  lemma Grown(t: seq<Service>, i: nat, j: nat)
    requires i <= j <= |t|
    ensures PrimariesOf(t[..i]) + PrimariesOf(t[i..j]) == PrimariesOf(t[..j])
    ensures RangesFor(t[..i]) + RangesFor(t[i..j]) == RangesFor(t[..j])
    ensures t[..|t|] == t
  {
    assert t[..j] == t[..i] + t[i..j];
  }

  /** The list holds exactly the services below the handle asked for next. */
  ghost predicate AllSoFar(t: seq<Service>, d: Discovery<Primary>) {
    && d.next.Some? && 1 <= d.next.value <= 0xffff
    && d.found == PrimariesOf(t[..FirstFrom(t, StartOf, d.next.value)])
  }

  /** One page: the list grows by exactly the services served, and either they end the handle range or
      the next request starts past the last of them. */
  lemma {:induction false} AllPage(t: seq<Service>, d: Discovery<Primary>, choose: nat -> nat, mtu: nat)
    returns (j: nat)
    requires ValidTable(t) && mtu >= 23 && AllSoFar(t, d) && FirstFrom(t, StartOf, d.next.value) < |t|
    ensures FirstFrom(t, StartOf, d.next.value) < j <= |t|
    ensures AllStep(t, choose, mtu, d) == AfterServices(PrimariesOf(t[..j]), t[j - 1].end)
  {
    hide AllStep, PrimariesOf, ValidTable, FirstFrom;
    var i := FirstFrom(t, StartOf, d.next.value);
    var page, k, next := AllExchange(t, d, choose, mtu);
    j := i + k;
    assert page[k - 1] == t[i + (k - 1)];
    PrimariesOfPage(t, i, page, k);
  }

  /** One request and its response. */
  lemma AllExchange(t: seq<Service>, d: Discovery<Primary>, choose: nat -> nat, mtu: nat)
    returns (page: seq<Service>, k: nat, next: Discovery<Primary>)
    requires ValidTable(t) && mtu >= 23 && d.next.Some? && FirstFrom(t, StartOf, d.next.value) < |t|
    ensures var i := FirstFrom(t, StartOf, d.next.value);
            0 < k <= |page| && i + |page| <= |t| && forall l :: 0 <= l < |page| ==> page[l] == t[i + l]
    ensures next == AllStep(t, choose, mtu, d)
    ensures next == AfterServices(d.found + PrimariesOf(page[..k]), page[k - 1].end)
  {
    hide ServeAll, AllCallback, FirstFrom, EntriesOf, ListPdu, Seen, PrimariesOf;
    page := AllServed(t, d.next.value, choose, mtu);
    k, next := AllPageCallback(d, page, |t[FirstFrom(t, StartOf, d.next.value)].uuid|);
  }

  lemma UuidExchange(m: seq<Service>, d: Discovery<Range>, choose: nat -> nat, mtu: nat)
    returns (page: seq<Service>, k: nat, next: Discovery<Range>)
    requires ValidTable(m) && mtu >= 23 && d.next.Some? && FirstFrom(m, StartOf, d.next.value) < |m|
    ensures var i := FirstFrom(m, StartOf, d.next.value);
            0 < k <= |page| && i + |page| <= |m| && forall l :: 0 <= l < |page| ==> page[l] == m[i + l]
    ensures next == UuidStep(m, choose, mtu, d)
    ensures next == AfterServices(d.found + RangesFor(page[..k]), page[k - 1].end)
  {
    hide ServeUuid, UuidCallback, FirstFrom, RangesFor, RangesBytes, Seen;
    page := UuidServed(m, d.next.value, choose, mtu);
    k, next := UuidPageCallback(d, page);
  }

  /** What the server sends for a request that some service answers. */
  lemma AllServed(t: seq<Service>, start: nat, choose: nat -> nat, mtu: nat) returns (page: seq<Service>)
    requires ValidTable(t) && mtu >= 23 && FirstFrom(t, StartOf, start) < |t|
    ensures var i := FirstFrom(t, StartOf, start);
            && page != [] && i + |page| <= |t|
            && (forall k :: 0 <= k < |page| ==> page[k] == t[i + k] && |page[k].uuid| == |t[i].uuid|)
            && ServeAll(t, start, choose, mtu) ==
               (0, Seen(ListPdu(OP_READ_BY_GROUP_RESP, 4 + |t[i].uuid|, EntriesOf(page, EntryOf))))
  {
    page := Page(t[FirstFrom(t, StartOf, start)..], UuidOf, 4, choose(start), mtu);
    PageIsSlice(t, FirstFrom(t, StartOf, start), page);
  }

  lemma UuidServed(m: seq<Service>, start: nat, choose: nat -> nat, mtu: nat) returns (page: seq<Service>)
    requires ValidTable(m) && mtu >= 23 && FirstFrom(m, StartOf, start) < |m|
    ensures var i := FirstFrom(m, StartOf, start);
            && page != [] && i + |page| <= |m|
            && (forall k :: 0 <= k < |page| ==> page[k] == m[i + k])
            && ServeUuid(m, start, choose, mtu) == (0, Seen([OP_FIND_BY_TYPE_RESP] + RangesBytes(RangesFor(page))))
  {
    page := RangePage(m[FirstFrom(m, StartOf, start)..], choose(start), mtu);
    PageIsSlice(m, FirstFrom(m, StartOf, start), page);
  }

  lemma PageIsSlice(t: seq<Service>, i: nat, page: seq<Service>)
    requires i <= |t| && page <= t[i..]
    ensures i + |page| <= |t| && forall k :: 0 <= k < |page| ==> page[k] == t[i + k]
  {
    forall k | 0 <= k < |page| ensures page[k] == t[i + k] {
      assert page[k] == t[i..][k];
    }
  }

  lemma PrimariesOfPage(t: seq<Service>, i: nat, page: seq<Service>, k: nat)
    requires 0 < k <= |page| && i + |page| <= |t| && forall l :: 0 <= l < |page| ==> page[l] == t[i + l]
    ensures PrimariesOf(t[..i]) + PrimariesOf(page[..k]) == PrimariesOf(t[..i + k])
  {
    assert page[..k] == t[i..i + k];
    Grown(t, i, i + k);
  }

  lemma RangesOfPage(t: seq<Service>, i: nat, page: seq<Service>, k: nat)
    requires 0 < k <= |page| && i + |page| <= |t| && forall l :: 0 <= l < |page| ==> page[l] == t[i + l]
    ensures RangesFor(t[..i]) + RangesFor(page[..k]) == RangesFor(t[..i + k])
  {
    assert page[..k] == t[i..i + k];
    Grown(t, i, i + k);
  }

  /** What `primary_all_cb` makes of an encoded page: the services in front that are seen whole. */
  lemma AllPageCallback(d: Discovery<Primary>, page: seq<Service>, width: nat)
    returns (k: nat, next: Discovery<Primary>)
    requires page != [] && (width == 2 || width == 16)
    requires forall i :: 0 <= i < |page| ==> page[i].start <= 0xffff && page[i].end <= 0xffff && |page[i].uuid| == width
    ensures 0 < k <= |page|
    ensures next == AllCallback(d, 0, Seen(ListPdu(OP_READ_BY_GROUP_RESP, 4 + width, EntriesOf(page, EntryOf))))
    ensures next == AfterServices(d.found + PrimariesOf(page[..k]), page[k - 1].end)
  {
    hide AllCallback, PrimariesOf, DecList, EntryOf;
    var es := EntriesOf(page, EntryOf);
    assert Uniform(es, 4 + width);
    k := DecSeenListPdu(OP_READ_BY_GROUP_RESP, 4 + width, es);
    assert es[..k] == EntriesOf(page[..k], EntryOf);
    next := SeenCallback(d, page[..k], width, Seen(ListPdu(OP_READ_BY_GROUP_RESP, 4 + width, es)));
  }

  lemma SeenCallback(d: Discovery<Primary>, seen: seq<Service>, width: nat, pdu: seq<byte>)
    returns (next: Discovery<Primary>)
    requires seen != [] && (width == 2 || width == 16) && Readable(OP_READ_BY_GROUP_RESP, pdu, 4)
    requires forall i :: 0 <= i < |seen| ==> seen[i].start <= 0xffff && seen[i].end <= 0xffff && |seen[i].uuid| == width
    requires DecList(OP_READ_BY_GROUP_RESP, pdu) == Some(DataList(4 + width, EntriesOf(seen, EntryOf)))
    ensures next == AllCallback(d, 0, pdu)
    ensures next == AfterServices(d.found + PrimariesOf(seen), seen[|seen| - 1].end)
  {
    hide DecList, EntriesOf, EntryOf, Entries, PrimariesOf, LastEnd;
    EntriesRoundTrip(seen);
    next := AllCallback(d, 0, pdu);
  }

  /** The two ways a page can leave the procedure in. */
  lemma AfterPage(t: seq<Service>, j: nat)
    requires ValidTable(t) && 0 < j <= |t|
    ensures t[j - 1].end == 0xffff ==> t[..j] == t
    ensures t[j - 1].end < 0xffff ==>
              && AllSoFar(t, Discovery(PrimariesOf(t[..j]), Some(t[j - 1].end + 1), None))
              && RangesSoFar(t, Discovery(RangesFor(t[..j]), Some(t[j - 1].end + 1), None))
  {
    NextFrom(t, j - 1);
  }

  lemma AllEnd(t: seq<Service>, d: Discovery<Primary>, choose: nat -> nat, mtu: nat)
    requires ValidTable(t) && mtu >= 23 && AllSoFar(t, d) && FirstFrom(t, StartOf, d.next.value) == |t|
    ensures AllStep(t, choose, mtu, d) == Finished(PrimariesOf(t), 0)
  {
    assert t[|t|..] == [] && t[..|t|] == t;
  }

  lemma AllProceeds(t: seq<Service>, d: Discovery<Primary>, choose: nat -> nat, mtu: nat)
    returns (next: Discovery<Primary>)
    requires ValidTable(t) && mtu >= 23 && AllSoFar(t, d)
    ensures next == AllStep(t, choose, mtu, d)
    ensures next == Finished(PrimariesOf(t), 0) || (AllSoFar(t, next) && next.next.value > d.next.value)
  {
    hide AllStep, PrimariesOf, FirstFrom;
    if FirstFrom(t, StartOf, d.next.value) == |t| {
      AllEnd(t, d, choose, mtu);
      next := Finished(PrimariesOf(t), 0);
    } else {
      var j := AllPage(t, d, choose, mtu);
      next := AllStep(t, choose, mtu, d);
      AfterPage(t, j);
      assert t[j - 1].end >= t[j - 1].start >= d.next.value;
    }
  }

  function AllStart(): Discovery<Primary> {
    Discovery([], Some(1), None)
  }

  function UuidStart(): Discovery<Range> {
    Discovery([], Some(1), None)
  }

  /** For every service table and every choice of page sizes, discovery of all primary services ends
      within 65535 responses, without error, with exactly the services of the table in order. */
  lemma AllServicesDiscovered(t: seq<Service>, choose: nat -> nat, mtu: nat, n: nat)
    requires ValidTable(t) && mtu >= 23 && n >= 0xffff
    ensures Iterate(d => AskAll(t, choose, mtu, d), AllStart(), n).outcome == Some(Outcome(0, PrimariesOf(t)))
  {
    hide AskAll;
    var step := (d: Discovery<Primary>) => AskAll(t, choose, mtu, d);
    var good := (d: Discovery<Primary>) => AllSoFar(t, d);
    var goal := Outcome(0, PrimariesOf(t));
    forall d | good(d) ensures Proceeds(step, good, goal, d) {
      AskAllMeans(t, choose, mtu, d);
      var next := AllProceeds(t, d, choose, mtu);
    }
    FirstFromOne(t);
    IterateEnds(step, good, goal, AllStart(), n);
  }

  ghost predicate RangesSoFar(m: seq<Service>, d: Discovery<Range>) {
    && d.next.Some? && 1 <= d.next.value <= 0xffff
    && d.found == RangesFor(m[..FirstFrom(m, StartOf, d.next.value)])
  }

  /** What `primary_by_uuid_cb` makes of a page of ranges. */
  lemma UuidPageCallback(d: Discovery<Range>, page: seq<Service>) returns (k: nat, next: Discovery<Range>)
    requires page != [] && forall i :: 0 <= i < |page| ==> page[i].start <= 0xffff && page[i].end <= 0xffff
    ensures 0 < k <= |page|
    ensures next == UuidCallback(d, 0, Seen([OP_FIND_BY_TYPE_RESP] + RangesBytes(RangesFor(page))))
    ensures next == AfterServices(d.found + RangesFor(page[..k]), page[k - 1].end)
  {
    hide DecFindByType, RangesBytes, Seen;
    k := DecSeenRanges(RangesFor(page));
    assert RangesFor(page)[..k] == RangesFor(page[..k]);
    next := UuidCallback(d, 0, Seen([OP_FIND_BY_TYPE_RESP] + RangesBytes(RangesFor(page))));
  }

  lemma {:induction false} UuidPage(m: seq<Service>, d: Discovery<Range>, choose: nat -> nat, mtu: nat)
    returns (j: nat)
    requires ValidTable(m) && mtu >= 23 && RangesSoFar(m, d) && FirstFrom(m, StartOf, d.next.value) < |m|
    ensures FirstFrom(m, StartOf, d.next.value) < j <= |m|
    ensures UuidStep(m, choose, mtu, d) == AfterServices(RangesFor(m[..j]), m[j - 1].end)
  {
    hide UuidStep, RangesFor, ValidTable, FirstFrom;
    var i := FirstFrom(m, StartOf, d.next.value);
    var page, k, next := UuidExchange(m, d, choose, mtu);
    j := i + k;
    assert page[k - 1] == m[i + (k - 1)];
    RangesOfPage(m, i, page, k);
  }

  lemma UuidEnd(m: seq<Service>, d: Discovery<Range>, choose: nat -> nat, mtu: nat)
    requires ValidTable(m) && mtu >= 23 && RangesSoFar(m, d) && FirstFrom(m, StartOf, d.next.value) == |m|
    ensures UuidStep(m, choose, mtu, d) == Finished(RangesFor(m), 0)
  {
    assert m[|m|..] == [] && m[..|m|] == m;
  }

  lemma UuidProceeds(m: seq<Service>, d: Discovery<Range>, choose: nat -> nat, mtu: nat)
    returns (next: Discovery<Range>)
    requires ValidTable(m) && mtu >= 23 && RangesSoFar(m, d)
    ensures next == UuidStep(m, choose, mtu, d)
    ensures next == Finished(RangesFor(m), 0) || (RangesSoFar(m, next) && next.next.value > d.next.value)
  {
    hide UuidStep, RangesFor, FirstFrom;
    if FirstFrom(m, StartOf, d.next.value) == |m| {
      UuidEnd(m, d, choose, mtu);
      next := Finished(RangesFor(m), 0);
    } else {
      var j := UuidPage(m, d, choose, mtu);
      next := UuidStep(m, choose, mtu, d);
      AfterPage(m, j);
      assert m[j - 1].end >= m[j - 1].start >= d.next.value;
    }
  }

  /** The services that match are those of the table, each as often as it stands there. */
  lemma {:induction false} MatchingCounts(t: seq<Service>, uuid: seq<byte>, s: Service)
    ensures multiset(Matching(t, uuid))[s] == if s.uuid == uuid then multiset(t)[s] else 0
  {
    if t != [] {
      MatchingCounts(t[1..], uuid, s);
      assert t == [t[0]] + t[1..];
    }
  }

  lemma ConsValid(x: Service, rest: seq<Service>)
    requires 1 <= x.start <= x.end <= 0xffff && (|x.uuid| == 2 || |x.uuid| == 16) && ValidTable(rest)
    requires forall i :: 0 <= i < |rest| ==> x.end < rest[i].start
    ensures ValidTable([x] + rest)
  {
    var r := [x] + rest;
    assert forall i :: 0 <= i < |r| ==> r[i] == if i == 0 then x else rest[i - 1];
  }

  lemma TailValid(t: seq<Service>)
    requires ValidTable(t) && t != []
    ensures ValidTable(t[1..]) && forall i :: 0 <= i < |t[1..]| ==> t[0].end < t[1..][i].start
  {
    assert forall i :: 0 <= i < |t[1..]| ==> t[1..][i] == t[i + 1];
  }

  /** The services that match form a table of their own, above whatever bound the whole table keeps. */
  lemma {:induction false} MatchingAbove(t: seq<Service>, uuid: seq<byte>, low: nat)
    requires ValidTable(t) && forall i :: 0 <= i < |t| ==> low < t[i].start
    ensures ValidTable(Matching(t, uuid))
    ensures forall i :: 0 <= i < |Matching(t, uuid)| ==> low < Matching(t, uuid)[i].start
  {
    if t != [] {
      TailValid(t);
      assert low < t[0].start <= t[0].end;
      MatchingAbove(t[1..], uuid, t[0].end);
      if t[0].uuid == uuid {
        ConsValid(t[0], Matching(t[1..], uuid));
      }
    }
  }

  /** Exactly the services of the table with this UUID, each once and in handle order. */
  lemma MatchingMembers(t: seq<Service>, uuid: seq<byte>)
    requires ValidTable(t)
    ensures ValidTable(Matching(t, uuid))
    ensures forall s :: multiset(Matching(t, uuid))[s] == if s in t && s.uuid == uuid then 1 else 0
  {
    MatchingAbove(t, uuid, 0);
    forall s: Service ensures multiset(Matching(t, uuid))[s] == if s in t && s.uuid == uuid then 1 else 0 {
      MatchingCounts(t, uuid, s);
      OnceInTable(t, s);
    }
  }

  lemma {:induction false} OnceInTable(t: seq<Service>, s: Service)
    requires ValidTable(t)
    ensures multiset(t)[s] == if s in t then 1 else 0
  {
    if t != [] {
      TailValid(t);
      OnceInTable(t[1..], s);
      assert t == [t[0]] + t[1..];
    }
  }

  /** The same for discovery by UUID: exactly the ranges of the services with that UUID, in order. */
  lemma MatchingServicesDiscovered(t: seq<Service>, uuid: seq<byte>, choose: nat -> nat, mtu: nat, n: nat)
    requires ValidTable(t) && mtu >= 23 && n >= 0xffff && (|uuid| == 2 || |uuid| == 16)
    ensures var m := Matching(t, uuid);
            Iterate(d => AskUuid(t, uuid, choose, mtu, d), UuidStart(), n).outcome == Some(Outcome(0, RangesFor(m)))
  {
    hide AskUuid, Matching;
    var m := Matching(t, uuid);
    MatchingMembers(t, uuid);
    var step := (d: Discovery<Range>) => AskUuid(t, uuid, choose, mtu, d);
    var good := (d: Discovery<Range>) => RangesSoFar(m, d);
    var goal := Outcome(0, RangesFor(m));
    forall d | good(d) ensures Proceeds(step, good, goal, d) {
      AskUuidMeans(t, uuid, choose, mtu, d);
      var next := UuidProceeds(m, d, choose, mtu);
    }
    FirstFromOne(m);
    IterateEnds(step, good, goal, UuidStart(), n);
  }

  // ---------------------------------------------------------------- requests that fail

  /** What the callbacks make of an error. */
  function AllReport(d: Discovery<Primary>, status: byte): Discovery<Primary> {
    if status == 0 then d else AllCallback(d, status, [])
  }

  function UuidReport(d: Discovery<Range>, status: byte): Discovery<Range> {
    if status == 0 then d else UuidCallback(d, status, [])
  }

  /** Whichever requests fail, by an error response or a timeout: the first one that does ends the procedure with
      the services below the handle it asked for and with its error, except for the one that says there are no
      more; only that passes off a part of the services as all of them, if and only if some are left. */
  lemma AllFailureReported(t: seq<Service>, choose: nat -> nat, fail: nat -> byte, mtu: nat, n: nat)
    requires ValidTable(t) && mtu >= 23 && n >= 0xffff
    ensures var step := (d: Discovery<Primary>) => AskAll(t, choose, mtu, d);
            var outcome := Iterate(Failing(step, fail, AllReport), AllStart(), n).outcome;
            && outcome.Some?
            && match FirstFailure(step, fail, AllStart(), n)
               case None => outcome.value == Outcome(0, PrimariesOf(t))
               case Some(h) =>
                 var i := FirstFrom(t, StartOf, h);
                 && fail(h) != 0 && outcome.value == Outcome(ErrorOf(fail(h)), PrimariesOf(t[..i]))
                 && (outcome.value.err == 0 && outcome.value.list != PrimariesOf(t) <==>
                     fail(h) == ECODE_ATTR_NOT_FOUND && i < |t|)
  {
    hide AskAll;
    var step := (d: Discovery<Primary>) => AskAll(t, choose, mtu, d);
    var good := (d: Discovery<Primary>) => AllSoFar(t, d);
    var goal := Outcome(0, PrimariesOf(t));
    forall d | good(d) ensures Proceeds(step, good, goal, d) {
      AskAllMeans(t, choose, mtu, d);
      var next := AllProceeds(t, d, choose, mtu);
    }
    FirstFromOne(t);
    FailureEnds(step, fail, AllReport, good, goal, AllStart(), n);
    assert t[..|t|] == t;
  }

  /** The same for the services with one UUID. */
  lemma MatchingFailureReported(t: seq<Service>, uuid: seq<byte>, choose: nat -> nat, fail: nat -> byte, mtu: nat,
                                n: nat)
    requires ValidTable(t) && mtu >= 23 && n >= 0xffff && (|uuid| == 2 || |uuid| == 16)
    ensures var m := Matching(t, uuid);
            var step := (d: Discovery<Range>) => AskUuid(t, uuid, choose, mtu, d);
            var outcome := Iterate(Failing(step, fail, UuidReport), UuidStart(), n).outcome;
            && outcome.Some?
            && match FirstFailure(step, fail, UuidStart(), n)
               case None => outcome.value == Outcome(0, RangesFor(m))
               case Some(h) =>
                 var i := FirstFrom(m, StartOf, h);
                 && fail(h) != 0 && outcome.value == Outcome(ErrorOf(fail(h)), RangesFor(m[..i]))
                 && (outcome.value.err == 0 && outcome.value.list != RangesFor(m) <==>
                     fail(h) == ECODE_ATTR_NOT_FOUND && i < |m|)
  {
    hide AskUuid, Matching;
    var m := Matching(t, uuid);
    MatchingMembers(t, uuid);
    var step := (d: Discovery<Range>) => AskUuid(t, uuid, choose, mtu, d);
    var good := (d: Discovery<Range>) => RangesSoFar(m, d);
    var goal := Outcome(0, RangesFor(m));
    forall d | good(d) ensures Proceeds(step, good, goal, d) {
      AskUuidMeans(t, uuid, choose, mtu, d);
      var next := UuidProceeds(m, d, choose, mtu);
    }
    FirstFromOne(m);
    FailureEnds(step, fail, UuidReport, good, goal, UuidStart(), n);
    assert m[..|m|] == m;
  }
}
