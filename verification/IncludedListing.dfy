/** What included service discovery finds: against a conforming server, exactly the includes in handle
    order, although those with 128-bit UUIDs come back through reads of their own. */
module IncludedListing {
  import opened Bytes
  import opened AttDefs
  import opened AttCodec
  import opened AttRequests
  import opened AttUuid
  import opened Engine
  import opened EngineSafety
  import opened Holding
  import opened IncludedDiscovery
  import opened Paging

  // ---------------------------------------------------------------- the peer

  /** What is searched: the include declarations of the peer, the values of its attributes by handle, and the
      handle from which on the user asked for includes. */
  datatype Search = Search(all: seq<Include>, valueAt: nat -> seq<byte>, low: nat)

  /** An include declaration of the peer; `uuid` is the 2 or 16 bytes of the included service's UUID. */
  datatype Include = Include(handle: nat, start: nat, end: nat, uuid: seq<byte>)

  /** What the user should be given for it. */
  function IncludedOf(x: Include): Included {
    Included(x.handle, x.start, x.end, Wide(x.uuid))
  }

  function AllOf(t: seq<Include>): (r: seq<Included>)
    ensures |r| == |t|
  {
    seq(|t|, i requires 0 <= i < |t| => IncludedOf(t[i]))
  }

  /** A declaration at or below `end`.  A 128-bit UUID is the value of the service's own declaration, at its start
      handle. */
  predicate ValidInclude(x: Include, end: nat, search: Search) {
    && 1 <= x.handle <= end <= 0xffff && x.start <= 0xffff && x.end <= 0xffff
    && (|x.uuid| == 2 || (|x.uuid| == 16 && search.valueAt(x.start) == x.uuid))
  }

  /** The declarations of the range asked for. */
  ghost predicate ValidTable(t: seq<Include>, end: nat, search: Search) {
    && Ascending(t, HandleOf)
    && forall i :: 0 <= i < |t| ==> ValidInclude(t[i], end, search) && t[i].handle >= search.low
  }

  function HandleOf(x: Include): nat {
    x.handle
  }

  /** A 128-bit UUID does not fit the entry. */
  function EntryOf(x: Include): (e: seq<byte>)
    ensures |e| == if |x.uuid| == 2 then 8 else 6
  {
    LE16(x.handle) + LE16(x.start) + LE16(x.end) + if |x.uuid| == 2 then x.uuid else []
  }

  /** The next `n` declarations, at least one, have UUIDs of one width. */
  predicate IsPage(t: seq<Include>, start: nat, n: nat) {
    var i := FirstFrom(t, HandleOf, start);
    0 < n <= |t| - i && forall l :: i <= l < i + n ==> |t[l].uuid| == |t[i].uuid|
  }

  function PageOf(t: seq<Include>, start: nat, n: nat): (page: seq<Include>)
    requires IsPage(t, start, n)
    ensures |page| == n && forall k :: 0 <= k < n ==> page[k] == t[FirstFrom(t, HandleOf, start) + k]
  {
    t[FirstFrom(t, HandleOf, start)..FirstFrom(t, HandleOf, start) + n]
  }

  function PagePdu(page: seq<Include>): seq<byte>
    requires page != []
  {
    ListPdu(OP_READ_BY_TYPE_RESP, |EntryOf(page[0])|, EntriesOf(page, EntryOf))
  }

  /** What is seen of a conforming response: some page of declarations, the error that says there are
      none, or the UUID of the service asked for. */
  ghost predicate Conforms(t: seq<Include>, search: Search, q: Query, bytes: seq<byte>) {
    match q
    case Find(start) =>
      if FirstFrom(t, HandleOf, start) == |t| then
        |bytes| == 5 && bytes[0] == OP_ERROR && bytes[4] == ECODE_ATTR_NOT_FOUND
      else
        exists n :: IsPage(t, start, n) && bytes == Seen(PagePdu(PageOf(t, start, n)))
    case Resolve(incl) => bytes == [OP_READ_RESP] + search.valueAt(incl.start)
  }

  /** The first `n` of these declarations can go into one response. */
  predicate OneWidth(rows: seq<Include>, n: nat) {
    0 < n <= |rows| && forall l :: 0 <= l < n ==> |rows[l].uuid| == |rows[0].uuid|
  }

  predicate Refusal(bytes: seq<byte>, code: byte) {
    |bytes| == 5 && bytes[0] == 0x01 && bytes[4] == code
  }

  /** What is seen of the answer of a peer that goes by nothing but the PDU it was sent: a search for includes
      (0x2802) gets some page of those in its range, or the error for a range without one; a read gets the value
      of its handle; anything else is refused. */
  ghost predicate Serves(search: Search, pdu: seq<byte>, bytes: seq<byte>) {
    match Parse(pdu)
    case ReadByType(start, end, kind) =>
      var rows := Between(search.all, HandleOf, start, end);
      if start == 0 || start > end then Refusal(bytes, 0x01)
      else if kind != 0x2802 || rows == [] then Refusal(bytes, 0x0A)
      else exists n: nat :: OneWidth(rows, n) && bytes == Seen(PagePdu(rows[..n]))
    case ReadValue(handle) => bytes == [0x0B] + search.valueAt(handle)
    case _ => Refusal(bytes, 0x06)
  }

  /** The peer's declarations are in handle order, and `t` are those in the range the user asked for. */
  ghost predicate Aimed(search: Search, t: seq<Include>, end: nat) {
    && 1 <= search.low <= end <= 0xffff && t == Between(search.all, HandleOf, search.low, end)
    && Ascending(search.all, HandleOf)
    && forall i :: 0 <= i < |search.all| ==> ValidInclude(search.all[i], 0xffff, search)
  }

  lemma AimedTable(search: Search, t: seq<Include>, end: nat)
    requires Aimed(search, t, end)
    ensures ValidTable(t, end, search)
  {
    BetweenAscends(search.all, HandleOf, search.low, end);
  }

  /** What the peer makes of the PDU of a command is what the command is for: the search starts and ends where it
      should, and a read names the service whose UUID is wanted. */
  lemma ServesConforms(search: Search, t: seq<Include>, q: Query, end: nat, bytes: seq<byte>)
    requires Aimed(search, t, end) && Serves(search, RequestOf(q, end), bytes)
    requires if q.Find? then search.low <= q.start <= end else ReadsUuid(q, search)
    ensures Conforms(t, search, q, bytes)
  {
    hide FirstFrom, PagePdu, Seen, Parse;
    match q
    case Find(start) =>
      ReadByTypeParsed(start, end, 0x2802);
      BetweenFrom(search.all, HandleOf, search.low, start, end);
      var i, rows := FirstFrom(t, HandleOf, start), Between(search.all, HandleOf, start, end);
      if rows != [] {
        var n: nat :| OneWidth(rows, n) && bytes == Seen(PagePdu(rows[..n]));
        assert forall l :: i <= l < i + n ==> t[l] == rows[l - i];
        assert PageOf(t, start, n) == rows[..n];
      }
    case Resolve(incl) => ReadParsed(incl.start);
  }

  /** None of our commands is cancelled; other users' may be. */
  predicate Spared(w: World, op: Op<Data>) {
    match op
    case DoCancel(id) =>
      var i := IndexOf(w.eng.requests, id);
      i < |w.eng.requests| ==> w.eng.requests[i].data.None?
    case DoCancelAll => Mine(w.eng.requests) == []
    case _ => true
  }

  /** The server answers our requests as it should, they are not cancelled and do not time out. */
  ghost predicate Conforming(w: World, op: Op<Data>, search: Search) {
    && Spared(w, op)
    && (Completes(w.eng, op) ==> Serves(search, w.eng.requests[0].pdu, op.input.bytes))
    && (op.DoTimeout? ==> Mine(w.eng.requests) == [])
  }

  // ---------------------------------------------------------------- the list in handle order

  /** The includes whose UUIDs are still being read. */
  function Resolved(m: seq<Query>, search: Search): seq<Included> {
    if m == [] then []
    else
      (if m[0].Resolve? then [m[0].incl.(wide := search.valueAt(m[0].incl.start))] else []) + Resolved(m[1..], search)
  }

  /** How many declarations of the table have been found. */
  function Found(m: seq<Query>, t: seq<Include>): (n: nat)
    ensures n <= |t|
  {
    if m != [] && m[|m| - 1].Find? then FirstFrom(t, HandleOf, m[|m| - 1].start) else |t|
  }

  /** A read of the 128-bit UUID of a service. */
  predicate ReadsUuid(q: Query, search: Search) {
    q.Resolve? && q.incl.start <= 0xffff && |search.valueAt(q.incl.start)| == 16
  }

  /** A request for more declarations is behind all reads of UUIDs. */
  ghost predicate FindLast(m: seq<Query>, search: Search) {
    && (forall i :: 0 <= i < |m| - 1 ==> m[i].Resolve?)
    && forall i :: 0 <= i < |m| && m[i].Resolve? ==> ReadsUuid(m[i], search)
  }

  /** A request for more stays inside the range the user asked for. */
  ghost predicate InRange(m: seq<Query>, low: nat, end: nat) {
    forall q <- m :: q.Find? ==> low <= q.start <= end
  }

  /** The list, followed by the includes that are being resolved in queue order, is what has been found;
      each declaration found costs at most two responses. */
  ghost predicate Listed(isd: Isd, m: seq<Query>, t: seq<Include>, search: Search) {
    && isd.err == 0 && FindLast(m, search) && InRange(m, search.low, isd.end)
    && isd.includes + Resolved(m, search) == AllOf(t[..Found(m, t)])
    && isd.responses + |m| + 2 * (|t| - Found(m, t)) <= 2 * |t| + 1
  }

  ghost predicate Listing(w: World, t: seq<Include>, search: Search) {
    && AllLive(w.eng.requests) && w.isd.leaked == 0
    && Listed(w.isd, Mine(w.eng.requests), t, search)
    && (Mine(w.eng.requests) == [] ==> w.isd.calls == [Result(0, Some(AllOf(t)))])
  }

  lemma EntryRoundTrip(x: Include, end: nat, search: Search)
    requires ValidInclude(x, end, search)
    ensures FromLE16(EntryOf(x)) == x.handle
    ensures FromEntry(EntryOf(x)) == if |x.uuid| == 2 then IncludedOf(x) else IncludedOf(x).(wide := [])
  {
    WidenIsWide(x.uuid);
    var e := EntryOf(x);
    LE16RoundTrip(x.handle, e);
    assert e[2..][..2] == LE16(x.start) && e[4..][..2] == LE16(x.end);
    LE16RoundTrip(x.start, e[2..]);
    LE16RoundTrip(x.end, e[4..]);
    assert |x.uuid| == 2 ==> e[6..] == x.uuid;
  }

  lemma EntriesTail(page: seq<Include>)
    requires page != []
    ensures EntriesOf(page, EntryOf)[1..] == EntriesOf(page[1..], EntryOf)
    ensures EntriesOf(page, EntryOf)[0] == EntryOf(page[0])
    ensures AllOf(page) == [IncludedOf(page[0])] + AllOf(page[1..])
  {
  }

  /** A page of 16-bit UUIDs is known at once. */
  lemma {:induction false} PageKnown(page: seq<Include>, end: nat, search: Search)
    requires forall i :: 0 <= i < |page| ==> ValidInclude(page[i], end, search) && |page[i].uuid| == 2
    ensures Known(EntriesOf(page, EntryOf)) == AllOf(page) && Queries(EntriesOf(page, EntryOf)) == []
  {
    if page != [] {
      PageKnown(page[1..], end, search);
      EntryRoundTrip(page[0], end, search);
      EntriesTail(page);
    }
  }

  /** A page of 128-bit UUIDs is known once all its reads are answered. */
  lemma {:induction false} PageQueries(page: seq<Include>, end: nat, search: Search) returns (qs: seq<Query>)
    requires forall i :: 0 <= i < |page| ==> ValidInclude(page[i], end, search) && |page[i].uuid| == 16
    ensures Known(EntriesOf(page, EntryOf)) == [] && qs == Queries(EntriesOf(page, EntryOf)) && |qs| == |page|
    ensures Resolved(qs, search) == AllOf(page)
    ensures forall i :: 0 <= i < |qs| ==> ReadsUuid(qs[i], search)
  {
    qs := [];
    if page != [] {
      var rest := PageQueries(page[1..], end, search);
      EntryRoundTrip(page[0], end, search);
      EntriesTail(page);
      qs := [Resolve(IncludedOf(page[0]).(wide := []))] + rest;
      assert qs[1..] == rest;
    }
  }

  lemma PageGives(page: seq<Include>, width: nat, end: nat, search: Search) returns (qs: seq<Query>)
    requires width == 2 || width == 16
    requires forall i :: 0 <= i < |page| ==> ValidInclude(page[i], end, search) && |page[i].uuid| == width
    ensures qs == Queries(EntriesOf(page, EntryOf)) && |qs| <= |page|
    ensures Known(EntriesOf(page, EntryOf)) + Resolved(qs, search) == AllOf(page)
    ensures forall i :: 0 <= i < |qs| ==> ReadsUuid(qs[i], search)
  {
    if width == 2 {
      PageKnown(page, end, search);
      qs := [];
      assert AllOf(page) + [] == AllOf(page);
    } else {
      qs := PageQueries(page, end, search);
      assert [] + AllOf(page) == AllOf(page);
    }
  }

  lemma {:induction false} ResolvedConcat(a: seq<Query>, b: seq<Query>, search: Search)
    ensures Resolved(a + b, search) == Resolved(a, search) + Resolved(b, search)
  {
    if a == [] {
      assert a + b == b;
    } else {
      ResolvedConcat(a[1..], b, search);
      assert (a + b)[1..] == a[1..] + b && (a + b)[0] == a[0];
      Assoc(if a[0].Resolve? then [a[0].incl.(wide := search.valueAt(a[0].incl.start))] else [],
            Resolved(a[1..], search), Resolved(b, search));
    }
  }

  lemma AllConcat(t: seq<Include>, i: nat, j: nat)
    requires i <= j <= |t|
    ensures AllOf(t[..i]) + AllOf(t[i..j]) == AllOf(t[..j]) && t[..|t|] == t
  {
    assert t[..j] == t[..i] + t[i..j];
  }

  lemma NextFrom(t: seq<Include>, end: nat, search: Search, j: nat)
    requires ValidTable(t, end, search) && 0 < j <= |t|
    ensures FirstFrom(t, HandleOf, t[j - 1].handle + 1) == j
    ensures t[j - 1].handle >= end ==> j == |t|
  {
    var i := FirstFrom(t, HandleOf, t[j - 1].handle + 1);
    assert i < |t| ==> t[i].handle > t[j - 1].handle;
    assert j < |t| ==> t[j - 1].handle < t[j].handle && ValidInclude(t[j], end, search);
  }

  /** A UUID has been read: it is that of the first include that waits for one. */
  lemma ResolveLists(isd: Isd, m: seq<Query>, t: seq<Include>, search: Search, bytes: seq<byte>)
    returns (isd1: Isd)
    requires m != [] && m[0].Resolve? && Listed(isd, m, t, search)
    requires bytes == [OP_READ_RESP] + search.valueAt(m[0].incl.start)
    ensures isd1 == ResolveCb(isd.(responses := isd.responses + 1), m[0].incl, 0, bytes)
    ensures Listed(isd1, m[1..], t, search) && isd1.refs == isd.refs && isd1.calls == isd.calls
    ensures isd1.end == isd.end && isd1.leaked == isd.leaked && isd1.freed == isd.freed
    ensures m[1..] == [] ==> isd1.includes == AllOf(t)
  {
    var x := m[0].incl.(wide := search.valueAt(m[0].incl.start));
    assert bytes[1..] == search.valueAt(m[0].incl.start);
    isd1 := isd.(responses := isd.responses + 1, includes := isd.includes + [x]);
    Assoc(isd.includes, [x], Resolved(m[1..], search));
    assert Found(m[1..], t) == Found(m, t);
    if m[1..] == [] {
      AllConcat(t, 0, |t|);
      assert isd1.includes + [] == isd1.includes;
    }
  }

  /** No declaration is left: the list is complete. */
  lemma NoneLists(isd: Isd, start: nat, t: seq<Include>, search: Search)
    requires Listed(isd, [Find(start)], t, search) && FirstFrom(t, HandleOf, start) == |t|
    ensures isd.includes == AllOf(t)
    ensures Listed(isd.(responses := isd.responses + 1), [], t, search)
  {
    assert Resolved([Find(start)], search) == [] && isd.includes + [] == isd.includes;
    AllConcat(t, 0, |t|);
  }

  /** The declarations a response shows: those of the page whose entries are seen whole. */
  lemma SeenPage(page: seq<Include>, width: nat) returns (k: nat)
    requires page != [] && (width == 2 || width == 16) && forall i :: 0 <= i < |page| ==> |page[i].uuid| == width
    ensures 0 < k <= |page| && Readable(Seen(PagePdu(page)))
    ensures DecList(OP_READ_BY_TYPE_RESP, Seen(PagePdu(page))) ==
            Some(DataList(if width == 2 then 8 else 6, EntriesOf(page[..k], EntryOf)))
  {
    var n := if width == 2 then 8 else 6;
    assert |EntryOf(page[0])| == n && Uniform(EntriesOf(page, EntryOf), n);
    k := DecSeenListPdu(OP_READ_BY_TYPE_RESP, n, EntriesOf(page, EntryOf));
    assert EntriesOf(page, EntryOf)[..k] == EntriesOf(page[..k], EntryOf);
  }

  /** The loop when nothing of ours is queued. */
  lemma ListFound(w: World, es: seq<seq<byte>>, last: nat) returns (z: World)
    requires Inside(w) && Mine(w.eng.requests) == [] && es != []
    requires (forall i :: 0 <= i < |es| ==> |es[i]| >= 6) && last == FromLE16(es[|es| - 1])
    ensures z == TakeList(w, es) && Inside(z) && After(w, z)
    ensures Mine(z.eng.requests) == Queries(es) + More(last, w.isd.end)
    ensures z.isd == w.isd.(refs := z.isd.refs, includes := w.isd.includes + Known(es))
  {
    hide Queries, Known, TakeList;
    z := ListInside(w, es);
    assert [] + Queries(es) == Queries(es);
  }

  function More(last: nat, end: nat): seq<Query> {
    if last < end then [Find(last + 1)] else []
  }

  /** What the declarations from `i` to `j` add to the list of those before them. */
  lemma PageLists(isd: Isd, isd1: Isd, page: seq<Include>, width: nat, t: seq<Include>, i: nat, j: nat, end: nat,
                  search: Search)
    returns (m1: seq<Query>)
    requires ValidTable(t, end, search) && i < j <= |t| && page == t[i..j] && (width == 2 || width == 16)
    requires forall k :: 0 <= k < |page| ==> ValidInclude(page[k], end, search) && |page[k].uuid| == width
    requires isd.includes == AllOf(t[..i]) && isd1.includes == isd.includes + Known(EntriesOf(page, EntryOf))
    requires isd1.err == 0 && isd1.responses <= 1 + 2 * i && isd1.end == end
    ensures m1 == Queries(EntriesOf(page, EntryOf)) + More(t[j - 1].handle, end)
    ensures Listed(isd1, m1, t, search) && (m1 == [] ==> isd1.includes == AllOf(t))
  {
    var known, more := Known(EntriesOf(page, EntryOf)), More(t[j - 1].handle, end);
    var queries := PageGives(page, width, end, search);
    m1 := queries + more;
    NextFrom(t, end, search, j);
    JoinListed(isd, isd1, known, queries, more, t, i, j, search);
  }

  lemma JoinOrder(queries: seq<Query>, more: seq<Query>, search: Search, end: nat)
    requires forall k :: 0 <= k < |queries| ==> ReadsUuid(queries[k], search)
    requires |more| <= 1 && (forall q <- more :: q.Find?) && InRange(more, search.low, end)
    ensures FindLast(queries + more, search) && InRange(queries + more, search.low, end)
  {
    assert more != [] ==> more[0] in more;
  }

  lemma JoinListed(isd: Isd, isd1: Isd, known: seq<Included>, queries: seq<Query>, more: seq<Query>, t: seq<Include>,
                   i: nat, j: nat, search: Search)
    requires i < j <= |t| && isd.includes == AllOf(t[..i]) && known + Resolved(queries, search) == AllOf(t[i..j])
    requires |queries| <= j - i
    requires forall k :: 0 <= k < |queries| ==> ReadsUuid(queries[k], search)
    requires if more == [] then j == |t| else |more| == 1 && more[0].Find? && FirstFrom(t, HandleOf, more[0].start) == j
    requires isd1.includes == isd.includes + known && isd1.err == 0
    requires isd1.responses <= 1 + 2 * i && InRange(more, search.low, isd1.end)
    ensures Listed(isd1, queries + more, t, search)
    ensures queries + more == [] ==> isd1.includes == AllOf(t)
  {
    hide AllOf, Resolved, FindLast, InRange, ReadsUuid, FirstFrom, Found;
    var m1 := queries + more;
    assert forall q <- more :: q.Find? by {
      assert more != [] ==> more == [more[0]];
    }
    JoinOrder(queries, more, search, isd1.end);
    JoinLists(isd.includes, known, queries, more, t, i, j, search);
    JoinFound(queries, more, t, search);
    AllConcat(t, 0, |t|);
  }

  /** How much has been found is up to the request for more, if there is one. */
  lemma JoinFound(queries: seq<Query>, more: seq<Query>, t: seq<Include>, search: Search)
    requires (forall k :: 0 <= k < |queries| ==> ReadsUuid(queries[k], search)) && |more| <= 1
    requires forall q <- more :: q.Find?
    ensures Found(queries + more, t) == if more == [] then |t| else FirstFrom(t, HandleOf, more[0].start)
  {
    hide FirstFrom;
    var m1 := queries + more;
    if more == [] {
      assert m1 == queries;
    } else {
      assert m1[|m1| - 1] == more[0] && more[0] in more;
    }
  }

  lemma NoneBefore(isd: Isd, start: nat, t: seq<Include>, search: Search)
    requires Listed(isd, [Find(start)], t, search)
    ensures isd.includes == AllOf(t[..FirstFrom(t, HandleOf, start)])
  {
    assert Resolved([Find(start)], search) == [] && isd.includes + [] == isd.includes;
  }

  lemma JoinLists(before: seq<Included>, known: seq<Included>, queries: seq<Query>, more: seq<Query>, t: seq<Include>,
                  i: nat, j: nat, search: Search)
    requires i <= j <= |t| && before == AllOf(t[..i]) && |more| <= 1 && forall q <- more :: q.Find?
    requires known + Resolved(queries, search) == AllOf(t[i..j])
    ensures before + known + Resolved(queries + more, search) == AllOf(t[..j])
    ensures queries + more == [] ==> before + known == AllOf(t[..j])
  {
    ResolvedConcat(queries, more, search);
    assert more != [] ==> more[0] in more;
    assert Resolved(more, search) == [];
    AllConcat(t, i, j);
    Assoc(before, known, Resolved(queries, search));
    assert Resolved(queries, search) + [] == Resolved(queries, search);
    assert before + known + [] == before + known;
  }

  /** A reference dropped from a list that is kept as it should be. */
  lemma UnrefLists(e: State<Data>, isd: Isd, t: seq<Include>, search: Search)
    requires Balanced(isd, Holders(e.requests) + 1) && isd.leaked == 0 && AllLive(e.requests)
    requires Listed(isd, Mine(e.requests), t, search)
    requires Mine(e.requests) == [] ==> isd.includes == AllOf(t)
    ensures Listing(World(e, Unref(isd)), t, search)
  {
    HoldersMine(e.requests);
  }

  lemma PageValid(t: seq<Include>, start: nat, n: nat, end: nat, search: Search) returns (page: seq<Include>)
    requires ValidTable(t, end, search) && IsPage(t, start, n)
    ensures page == PageOf(t, start, n) && |page| == n
    ensures forall k :: 0 <= k < n ==> ValidInclude(page[k], end, search) && |page[k].uuid| == |page[0].uuid|
  {
    page := PageOf(t, start, n);
    forall k | 0 <= k < n ensures ValidInclude(page[k], end, search) && |page[k].uuid| == |page[0].uuid| {
      assert page[k] == t[FirstFrom(t, HandleOf, start) + k];
    }
  }

  lemma SeenSlice(t: seq<Include>, start: nat, n: nat, end: nat, search: Search)
    returns (page: seq<Include>, k: nat)
    requires ValidTable(t, end, search) && IsPage(t, start, n)
    ensures page == PageOf(t, start, n) && |page| == n
    ensures var i, width := FirstFrom(t, HandleOf, start), |page[0].uuid|;
            && 0 < k <= n && i + k <= |t| && page[..k] == t[i..i + k] && (width == 2 || width == 16)
            && (forall l :: 0 <= l < k ==> ValidInclude(page[..k][l], end, search) && |page[..k][l].uuid| == width)
            && Readable(Seen(PagePdu(page)))
            && DecList(OP_READ_BY_TYPE_RESP, Seen(PagePdu(page))) ==
               Some(DataList(if width == 2 then 8 else 6, EntriesOf(page[..k], EntryOf)))
  {
    page := PageValid(t, start, n, end, search);
    assert ValidInclude(page[0], end, search);
    k := SeenPage(page, |page[0].uuid|);
  }

  /** `find_included_cb` and the drop of its reference, on the declarations from `i` to `j`. */
  lemma SliceServed(w: World, page: seq<Include>, width: nat, bytes: seq<byte>, t: seq<Include>, i: nat, j: nat,
                    search: Search)
    returns (z: World)
    requires Inside(w) && Mine(w.eng.requests) == [] && ValidTable(t, w.isd.end, search)
    requires AllLive(w.eng.requests) && w.isd.leaked == 0
    requires i < j <= |t| && page == t[i..j] && (width == 2 || width == 16)
    requires forall k :: 0 <= k < |page| ==> ValidInclude(page[k], w.isd.end, search) && |page[k].uuid| == width
    requires w.isd.err == 0 && w.isd.includes == AllOf(t[..i]) && w.isd.responses <= 1 + 2 * i
    ensures z == TakeList(w, EntriesOf(page, EntryOf)) && z.eng.current == w.eng.current
    ensures Listing(World(z.eng, Unref(z.isd)), t, search)
  {
    var es := EntriesOf(page, EntryOf);
    assert FromLE16(es[|es| - 1]) == t[j - 1].handle by {
      EntryRoundTrip(page[|page| - 1], w.isd.end, search);
    }
    z := ListFound(w, es, t[j - 1].handle);
    var m1 := PageLists(w.isd, z.isd, page, width, t, i, j, w.isd.end, search);
    UnrefLists(z.eng, z.isd, t, search);
  }

  lemma PageServed(w: World, start: nat, n: nat, bytes: seq<byte>, t: seq<Include>, search: Search)
    returns (z: World)
    requires Inside(w) && Mine(w.eng.requests) == [] && Listed(w.isd, [Find(start)], t, search)
    requires AllLive(w.eng.requests) && w.isd.leaked == 0
    requires ValidTable(t, w.isd.end, search) && IsPage(t, start, n) && bytes == Seen(PagePdu(PageOf(t, start, n)))
    ensures Readable(bytes) && z == Served(w, Find(start), 0, bytes) && z.eng.current == w.eng.current
    ensures Listing(z, t, search)
  {
    hide Listing, Unref, TakeList, Seen, PagePdu, DecList, EntriesOf, EntryOf, Holders, ValidTable, AllOf;
    var i := FirstFrom(t, HandleOf, start);
    var page, k := SeenSlice(t, start, n, w.isd.end, search);
    var width := |page[0].uuid|;
    NoneBefore(w.isd, start, t, search);
    var counted := w.(isd := w.isd.(responses := w.isd.responses + 1));
    var found := SliceServed(counted, page[..k], width, bytes, t, i, i + k, search);
    z := ServedFind(w, start, bytes, if width == 2 then 8 else 6, EntriesOf(page[..k], EntryOf), found);
  }

  lemma ServedFind(w: World, start: nat, pdu: seq<byte>, n: nat, es: seq<seq<byte>>, found: World) returns (z: World)
    requires Readable(pdu) && (n == 6 || n == 8) && DecList(OP_READ_BY_TYPE_RESP, pdu) == Some(DataList(n, es))
    requires forall i :: 0 <= i < |es| ==> |es[i]| >= 6
    requires found == TakeList(w.(isd := w.isd.(responses := w.isd.responses + 1)), es)
    ensures z == Served(w, Find(start), 0, pdu) == World(found.eng, Unref(found.isd))
  {
    z := World(found.eng, Unref(found.isd));
    var counted := w.(isd := w.isd.(responses := w.isd.responses + 1));
    assert FindCb(counted, 0, pdu) == found;
  }

  /** A UUID that was read. */
  lemma ServedResolve(w: World, m: seq<Query>, bytes: seq<byte>, t: seq<Include>, search: Search)
    returns (z: World)
    requires Inside(w) && m != [] && Mine(w.eng.requests) == m[1..] && Listed(w.isd, m, t, search)
    requires AllLive(w.eng.requests) && w.isd.leaked == 0
    requires m[0].Resolve? && bytes == [OP_READ_RESP] + search.valueAt(m[0].incl.start)
    ensures z == Served(w, m[0], 0, bytes) && z.eng.current == w.eng.current
    ensures Listing(z, t, search)
  {
    hide ResolveCb, Listed, Listing, Unref;
    var isd1 := ResolveLists(w.isd, m, t, search, bytes);
    UnrefLists(w.eng, isd1, t, search);
    z := World(w.eng, Unref(isd1));
  }

  /** The error that says that no declaration is left. */
  lemma ServedNone(w: World, start: nat, bytes: seq<byte>, t: seq<Include>, search: Search)
    returns (z: World)
    requires Inside(w) && Mine(w.eng.requests) == [] && Listed(w.isd, [Find(start)], t, search)
    requires AllLive(w.eng.requests) && w.isd.leaked == 0 && FirstFrom(t, HandleOf, start) == |t|
    ensures z == Served(w, Find(start), ECODE_ATTR_NOT_FOUND, bytes) && z.eng.current == w.eng.current
    ensures Listing(z, t, search)
  {
    hide Listed, Listing, Unref;
    var isd1 := w.isd.(responses := w.isd.responses + 1);
    NoneLists(w.isd, start, t, search);
    UnrefLists(w.eng, isd1, t, search);
    z := World(w.eng, Unref(isd1));
  }

  /** What the status of a conforming answer is. */
  lemma StatusOf(c: Cmd<Data>, end: nat, bytes: seq<byte>)
    requires c.data.Some? && OurCmd(c, end) && bytes != []
    ensures c.data.value.Resolve? && bytes[0] == OP_READ_RESP ==> Status(c, bytes) == 0
    ensures c.data.value.Find? && bytes[0] == OP_READ_BY_TYPE_RESP ==> Status(c, bytes) == 0
    ensures |bytes| == 5 && bytes[0] == OP_ERROR ==> Status(c, bytes) == bytes[4]
  {
    assert Opcode(c) == if c.data.value.Resolve? then OP_READ_REQ else OP_READ_BY_TYPE_REQ;
  }

  lemma PageOpcode(t: seq<Include>, start: nat, n: nat)
    requires IsPage(t, start, n)
    ensures var pdu := Seen(PagePdu(PageOf(t, start, n))); pdu != [] && pdu[0] == OP_READ_BY_TYPE_RESP
  {
    hide FirstFrom, EntriesOf, EntryOf;
  }

  lemma ServedLists(w: World, m: seq<Query>, c: Cmd<Data>, bytes: seq<byte>, t: seq<Include>, search: Search)
    returns (z: World)
    requires Inside(w) && m != [] && Mine(w.eng.requests) == m[1..] && Listed(w.isd, m, t, search)
    requires AllLive(w.eng.requests) && w.isd.leaked == 0
    requires ValidTable(t, w.isd.end, search)
    requires c.data == Some(m[0]) && OurCmd(c, w.isd.end) && Conforms(t, search, m[0], bytes) && bytes != []
    ensures Decodable(c, bytes) && z == Served(w, m[0], Status(c, bytes), bytes) && z.eng.current == w.eng.current
    ensures Listing(z, t, search)
  {
    hide Served, Listing, Status, OurCmd, Seen, PagePdu, PageOf, Inside;
    StatusOf(c, w.isd.end, bytes);
    if m[0].Resolve? {
      z := ServedResolve(w, m, bytes, t, search);
    } else {
      var start := m[0].start;
      assert m == [Find(start)];
      if FirstFrom(t, HandleOf, start) == |t| {
        z := ServedNone(w, start, bytes, t, search);
      } else {
        var n :| IsPage(t, start, n) && bytes == Seen(PagePdu(PageOf(t, start, n)));
        PageOpcode(t, start, n);
        z := PageServed(w, start, n, bytes, t, search);
      }
    }
  }

  /** A command of ours in the queue asks for what it is for. */
  lemma HeadConforms(w: World, t: seq<Include>, search: Search, bytes: seq<byte>)
    requires Counted(w) && Listing(w, t, search) && Aimed(search, t, w.isd.end)
    requires w.eng.requests != [] && w.eng.requests[0].data.Some? && Serves(search, w.eng.requests[0].pdu, bytes)
    ensures Conforms(t, search, w.eng.requests[0].data.value, bytes)
  {
    hide Serves, Conforms, Aimed, Resolved, Found, AllOf;
    var q := w.eng.requests[0].data.value;
    MineHead(w.eng.requests);
    MineOne(w.eng.requests[0]);
    assert Mine(w.eng.requests)[0] == q && q in Mine(w.eng.requests);
    ServesConforms(search, t, q, w.isd.end, bytes);
  }

  lemma CompleteLists(w: World, bytes: seq<byte>, t: seq<Include>, search: Search)
    requires Counted(w) && Listing(w, t, search) && Aimed(search, t, w.isd.end)
    requires WorldEnabled(w, DoReceive(Pdu(bytes))) && Completes(w.eng, DoReceive(Pdu(bytes)))
    requires Serves(search, w.eng.requests[0].pdu, bytes)
    ensures Listing(Complete(w, bytes), t, search)
  {
    hide Serves, Conforms, Aimed, Listed, ValidTable;
    AimedTable(search, t, w.isd.end);
    HeadConforms(w, t, search, bytes);
    var c := w.eng.requests[0];
    var popped := PopOurs(w, bytes);
    assert Mine(w.eng.requests)[1..] == Mine(popped.eng.requests);
    assert c.live;
    var z := ServedLists(popped, Mine(w.eng.requests), c, bytes, t, search);
    assert Complete(w, bytes) == World(EndReceive(z.eng), z.isd);
  }

  lemma CancelSpares(w: World, id: nat)
    requires Counted(w) && Spared(w, DoCancel(id))
    ensures Mine(Cancel(w.eng, id).0.requests) == Mine(w.eng.requests)
    ensures AllLive(w.eng.requests) ==> AllLive(Cancel(w.eng, id).0.requests)
    ensures CancelOne(w.isd, w.eng.requests, id) == w.isd
  {
    hide Counted, IndexOf, Balanced;
    var q := w.eng.requests;
    var i := IndexOf(q, id);
    if i < |q| {
      MineWithout(q, i);
      MineUpdate(q, q[0].(live := false));
    }
  }

  lemma CancelAllSpares(w: World)
    requires Mine(w.eng.requests) == []
    ensures Mine(CancelAll(w.eng).requests) == [] && AllLive(CancelAll(w.eng).requests)
    ensures CancelOurs(w.isd, w.eng.requests) == w.isd
  {
    var q := w.eng.requests;
    MineNone(q);
    CancelQueueMine(q);
    DiscardNone(w.isd, q);
    if q != [] {
      MineOne(q[0]);
      DiscardNone(w.isd, q[1..]);
    }
    MineNone(CancelAll(w.eng).requests);
  }

  lemma WorldStepLists(w: World, op: Op<Data>, t: seq<Include>, search: Search)
    requires Counted(w) && OneSent(w.eng) && Listing(w, t, search) && Aimed(search, t, w.isd.end)
    requires WorldEnabled(w, op) && Conforming(w, op, search)
    ensures Listing(WorldStep(w, op), t, search)
  {
    if Completes(w.eng, op) {
      CompleteLists(w, op.input.bytes, t, search);
    } else {
      match op
      case DoTimeout => AbortCounts(w.isd, w.eng.requests, ECODE_TIMEOUT);
      case DoCancel(id) => CancelSpares(w, id);
      case DoCancelAll => CancelAllSpares(w);
      case _ => OthersUntouched(w, op);
    }
  }

  lemma StepsCount(worlds: seq<World>, ops: seq<Op<Data>>, end: nat, i: nat)
    requires AreSteps(worlds, ops) && i < |worlds| && Kept(worlds[0], end)
    ensures OneSent(worlds[i].eng) && Counted(worlds[i]) && worlds[i].isd.end == end
  {
    StepsKept(worlds, ops, end, i);
  }

  lemma StartListed(isd: Isd, start: nat, t: seq<Include>, search: Search)
    requires isd == Isd(isd.end, 1, 0, [], [], 0, 0, 0) && search.low == start <= isd.end
    requires ValidTable(t, isd.end, search)
    ensures Listed(isd, [Find(start)], t, search)
  {
    NoneInFront(t, HandleOf, start);
  }

  lemma StartsFresh(e: State<Data>, start: nat, end: nat)
    requires !e.stale
    ensures Start(e, start, end).isd == Isd(end, 1, 0, [], [], 0, 0, 0)
  {
    var c := StartShape(e, start, end);
  }

  lemma StartLists(e: State<Data>, start: nat, end: nat, t: seq<Include>, search: Search) returns (w: World)
    requires Ready(e) && !e.stale && start == search.low && Aimed(search, t, end)
    ensures w == Start(e, start, end) && Kept(w, end) && Listing(w, t, search)
  {
    hide Ready, Counted, FirstFrom, ValidTable, Inv, Start, Listed, AllLive;
    w := StartCounts(e, start, end);
    assert !e.stale;
    StartsFresh(e, start, end);
    AimedTable(search, t, end);
    StartListed(w.isd, start, t, search);
  }

  lemma {:induction false} StepsList(worlds: seq<World>, ops: seq<Op<Data>>, end: nat, t: seq<Include>,
                                     search: Search, i: nat)
    requires AreSteps(worlds, ops) && i < |worlds| && Aimed(search, t, end)
    requires Kept(worlds[0], end) && Listing(worlds[0], t, search)
    requires forall k :: 0 <= k < |ops| ==> Conforming(worlds[k], ops[k], search)
    ensures Listing(worlds[i], t, search)
  {
    hide WorldStep, WorldEnabled, Conforming, Listing, Kept, Counted, OneSent;
    if i > 0 {
      StepsList(worlds, ops, end, t, search, i - 1);
      StepsCount(worlds, ops, end, i - 1);
      assert IsStep(worlds[i - 1], ops[i - 1], worlds[i]);
      WorldStepLists(worlds[i - 1], ops[i - 1], t, search);
    }
  }

  lemma RunLists(worlds: seq<World>, ops: seq<Op<Data>>, e: State<Data>, start: nat, end: nat, t: seq<Include>,
                 search: Search, i: nat)
    requires IsIncludeRun(worlds, ops, e, start, end) && !e.stale && i < |worlds|
    requires Aimed(search, t, end) && search.low == start
    requires forall k :: 0 <= k < |ops| ==> Conforming(worlds[k], ops[k], search)
    ensures Listing(worlds[i], t, search)
  {
    var w := StartLists(e, start, end, t, search);
    StepsList(worlds, ops, end, t, search, i);
  }

  /** Against a server with any table of includes in the range, for any choice of pages and any mixture of
      16- and 128-bit UUIDs: within two responses for each include and one more, the user is given exactly
      the includes of the table, in handle order and with their UUIDs. */
  lemma IncludesDiscovered(worlds: seq<World>, ops: seq<Op<Data>>, e: State<Data>, start: nat, end: nat,
                           t: seq<Include>, search: Search, i: nat)
    requires IsIncludeRun(worlds, ops, e, start, end) && !e.stale && i < |worlds|
    requires Aimed(search, t, end) && search.low == start
    requires forall k :: 0 <= k < |ops| ==> Conforming(worlds[k], ops[k], search)
    ensures worlds[i].isd.refs == 0 ==> worlds[i].isd.calls == [Result(0, Some(AllOf(t)))]
    ensures worlds[i].isd.responses + worlds[i].isd.refs <= 2 * |t| + 1
  {
    RunLists(worlds, ops, e, start, end, t, search, i);
    RunCounts(worlds, ops, e, start, end, i);
    HoldersMine(worlds[i].eng.requests);
  }
}
