/** Procedures that ask page after page: each response either ends them or leads to the next request. */
module Paging {
  import opened Bytes
  import opened AttCodec

  /** What the user's callback is given: an error and the list. */
  datatype Outcome<+T> = Outcome(err: byte, list: seq<T>)

  /** The list so far and either the start handle of the request that is out or the outcome. */
  datatype Discovery<+T> = Discovery(found: seq<T>, next: Option<nat>, outcome: Option<Outcome<T>>)

  function Finished<T>(found: seq<T>, err: byte): Discovery<T> {
    Discovery(found, None, Some(Outcome(err, found)))
  }

  /** Up to `n` responses handled. */
  function Iterate<T>(step: Discovery<T> -> Discovery<T>, d: Discovery<T>, n: nat): Discovery<T>
    decreases n
  {
    if n == 0 || d.next == None then d else Iterate(step, step(d), n - 1)
  }

  /** Handles left above the one asked for next. */
  function Left<T>(d: Discovery<T>): nat {
    if d.next.Some? && d.next.value <= 0xffff then 0x1_0000 - d.next.value else 0
  }

  /** Index of the first element of a table in handle order that is at `start` or above. */
  function FirstFrom<T>(t: seq<T>, handle: T -> nat, start: nat): (i: nat)
    ensures i <= |t| && (i < |t| ==> handle(t[i]) >= start)
    ensures forall j :: 0 <= j < i ==> handle(t[j]) < start
  {
    if t == [] || handle(t[0]) >= start then 0 else 1 + FirstFrom(t[1..], handle, start)
  }

  /** A table in handle order. */
  ghost predicate Ascending<T>(t: seq<T>, handle: T -> nat) {
    forall i, j :: 0 <= i < j < |t| ==> handle(t[i]) < handle(t[j])
  }

  /** The elements of a table from handle `start` to handle `end`. */
  function Between<T>(t: seq<T>, handle: T -> nat, start: nat, end: nat): (r: seq<T>)
    ensures forall i :: 0 <= i < |r| ==> r[i] in t && start <= handle(r[i]) <= end
  {
    if t == [] then []
    else (if start <= handle(t[0]) <= end then [t[0]] else []) + Between(t[1..], handle, start, end)
  }

  lemma RestAbove<T>(all: seq<T>, handle: T -> nat, start: nat, end: nat)
    requires Ascending(all, handle) && all != []
    ensures Ascending(all[1..], handle)
    ensures forall x <- Between(all[1..], handle, start, end) :: handle(x) > handle(all[0])
  {
    forall x | x in Between(all[1..], handle, start, end) ensures handle(x) > handle(all[0]) {
      assert x in all[1..];
      var k :| 0 <= k < |all[1..]| && all[1..][k] == x;
      assert all[k + 1] == x;
    }
  }

  lemma FirstFromCons<T>(x: T, rest: seq<T>, handle: T -> nat, start: nat)
    ensures FirstFrom([x] + rest, handle, start) == if handle(x) >= start then 0 else 1 + FirstFrom(rest, handle, start)
    ensures ([x] + rest)[FirstFrom([x] + rest, handle, start)..] ==
            if handle(x) >= start then [x] + rest else rest[FirstFrom(rest, handle, start)..]
  {
    assert ([x] + rest)[1..] == rest;
  }

  lemma BetweenCons<T>(all: seq<T>, handle: T -> nat, start: nat, end: nat)
    requires all != []
    ensures Between(all, handle, start, end) ==
            if start <= handle(all[0]) <= end then [all[0]] + Between(all[1..], handle, start, end)
            else Between(all[1..], handle, start, end)
  {
    assert [] + Between(all[1..], handle, start, end) == Between(all[1..], handle, start, end);
  }

  lemma BetweenNone<T>(handle: T -> nat, start: nat, end: nat)
    ensures Between([], handle, start, end) == []
  {
  }

  /** Nothing is in front of a handle that is below all of them. */
  lemma NoneInFront<T>(t: seq<T>, handle: T -> nat, start: nat)
    requires forall x <- t :: handle(x) >= start
    ensures FirstFrom(t, handle, start) == 0 && t[0..] == t
  {
    if t != [] {
      assert t[0] in t;
    }
  }

  /** What is left of a range from a handle on: the rest of the table of that range. */
  lemma {:induction false} BetweenFrom<T>(all: seq<T>, handle: T -> nat, low: nat, start: nat, end: nat)
    requires Ascending(all, handle) && low <= start
    ensures var t := Between(all, handle, low, end);
            Between(all, handle, start, end) == t[FirstFrom(t, handle, start)..]
  {
    hide FirstFrom, Ascending, Between;
    if all == [] {
      NoneInFront([], handle, start);
      BetweenNone(handle, low, end);
      BetweenNone(handle, start, end);
    } else {
      var x, rest := all[0], Between(all[1..], handle, low, end);
      RestAbove(all, handle, low, end);
      BetweenFrom(all[1..], handle, low, start, end);
      BetweenCons(all, handle, low, end);
      BetweenCons(all, handle, start, end);
      FirstFromCons(x, rest, handle, start);
      if handle(x) >= start {
        NoneInFront(rest, handle, start);
      }
    }
  }

  lemma {:induction false} BetweenAscends<T>(all: seq<T>, handle: T -> nat, start: nat, end: nat)
    requires Ascending(all, handle)
    ensures Ascending(Between(all, handle, start, end), handle)
  {
    if all != [] {
      RestAbove(all, handle, start, end);
      BetweenAscends(all[1..], handle, start, end);
    }
  }

  lemma {:induction false} BetweenAll<T>(all: seq<T>, handle: T -> nat, start: nat, end: nat)
    requires forall x <- all :: start <= handle(x) <= end
    ensures Between(all, handle, start, end) == all
  {
    if all != [] {
      assert all[0] in all && forall x <- all[1..] :: x in all;
      BetweenAll(all[1..], handle, start, end);
    }
  }

  /** How many elements at the front have UUIDs of `n` bytes. */
  function SameWidth<T>(t: seq<T>, uuid: T -> seq<byte>, n: nat): (k: nat)
    ensures k <= |t| && forall i :: 0 <= i < k ==> |uuid(t[i])| == n
  {
    if t == [] || |uuid(t[0])| != n then 0 else 1 + SameWidth(t[1..], uuid, n)
  }

  /** The page a server sends that would like to send `wanted` elements: at least one, all with UUIDs of the
      width of the first, and no more than the PDU holds of entries with `fixed` bytes besides the UUID. */
  function Page<T>(rest: seq<T>, uuid: T -> seq<byte>, fixed: nat, wanted: nat, mtu: nat): (page: seq<T>)
    requires rest != [] && fixed > 0 && mtu >= 2
    ensures 0 < |page| <= |rest| && page == rest[..|page|]
    ensures forall i :: 0 <= i < |page| ==> |uuid(page[i])| == |uuid(rest[0])|
  {
    var most := SameWidth(rest, uuid, |uuid(rest[0])|);
    var fit := Room(most, fixed + |uuid(rest[0])|, mtu);
    var k := if wanted < fit then wanted else fit;
    rest[..if k == 0 then 1 else k]
  }

  /** The entries of a list response. */
  function EntriesOf<T>(page: seq<T>, entry: T -> seq<byte>): (es: seq<seq<byte>>)
    ensures |es| == |page| && forall i :: 0 <= i < |es| ==> es[i] == entry(page[i])
  {
    seq(|page|, i requires 0 <= i < |page| => entry(page[i]))
  }

  /** A step from `d` ends the procedure with `goal`, or keeps `good` and asks for a higher handle. */
  ghost predicate Proceeds<T>(step: Discovery<T> -> Discovery<T>, good: Discovery<T> -> bool, goal: Outcome<T>,
                              d: Discovery<T>) {
    || (step(d).next == None && step(d).outcome == Some(goal))
    || (good(step(d)) && Left(step(d)) < Left(d))
  }

  /** If that is so for every good state, the procedure ends with `goal`, after no more responses than
      there are handles. */
  lemma {:induction false} IterateEnds<T(!new)>(step: Discovery<T> -> Discovery<T>, good: Discovery<T> -> bool,
                                                goal: Outcome<T>, d: Discovery<T>, n: nat)
    requires forall x :: good(x) ==> x.next.Some? && Left(x) > 0 && Proceeds(step, good, goal, x)
    requires good(d) && n >= Left(d)
    ensures Iterate(step, d, n).next == None && Iterate(step, d, n).outcome == Some(goal)
    decreases n
  {
    assert Proceeds(step, good, goal, d);
    if step(d).next != None {
      IterateEnds(step, good, goal, step(d), n - 1);
    }
  }

  /** Requests may fail, by an error response or a timeout: `fail` says with which status the one from a handle
      does, or 0, and `report` is what the procedure makes of that. */
  function Failing<T>(step: Discovery<T> -> Discovery<T>, fail: nat -> byte,
                      report: (Discovery<T>, byte) -> Discovery<T>)
    : Discovery<T> -> Discovery<T>
  {
    (d: Discovery<T>) =>
      if d.next.Some? && fail(d.next.value) != 0 then report(d, fail(d.next.value)) else step(d)
  }

  /** Up to `n` responses handled, stopping at a request that is going to fail. */
  function IterateUntil<T>(step: Discovery<T> -> Discovery<T>, fail: nat -> byte, d: Discovery<T>, n: nat)
    : Discovery<T>
    decreases n
  {
    if n == 0 || d.next == None || fail(d.next.value) != 0 then d else IterateUntil(step, fail, step(d), n - 1)
  }

  /** The handle asked for by the first request to fail, if one does. */
  function FirstFailure<T>(step: Discovery<T> -> Discovery<T>, fail: nat -> byte, d: Discovery<T>, n: nat)
    : Option<nat>
  {
    IterateUntil(step, fail, d, n).next
  }

  /** The procedure then ends with `goal`, or in a good state with what is made of the first failure. */
  lemma {:induction false} FailureEnds<T(!new)>(step: Discovery<T> -> Discovery<T>, fail: nat -> byte,
                                                report: (Discovery<T>, byte) -> Discovery<T>,
                                                good: Discovery<T> -> bool, goal: Outcome<T>, d: Discovery<T>, n: nat)
    requires forall x :: good(x) ==> x.next.Some? && Left(x) > 0 && Proceeds(step, good, goal, x)
    requires forall x, status: byte :: good(x) && status != 0 ==> report(x, status).next == None
    requires good(d) && n >= Left(d)
    ensures var stop, end := IterateUntil(step, fail, d, n), Iterate(Failing(step, fail, report), d, n);
            if stop.next == None then stop.outcome == Some(goal) && end == stop
            else good(stop) && fail(stop.next.value) != 0 && end == report(stop, fail(stop.next.value))
    decreases n
  {
    assert Proceeds(step, good, goal, d);
    if fail(d.next.value) == 0 && step(d).next != None {
      FailureEnds(step, fail, report, good, goal, step(d), n - 1);
    }
  }
}
