/** The singly linked list of `sdp.c`, with its pointer surgery, refining sequences. */
module SdpList {
  import opened Bytes

  class ListNode<T> {
    const data: T
    var next: ListNode?<T>

    constructor (data: T, next: ListNode?<T>)
      ensures this.data == data && this.next == next
    {
      this.data, this.next := data, next;
    }
  }

  /** `sdp_list_insert_sorted` on sequences: in front of the first element not below `d`. */
  function Inserted<T>(s: seq<T>, d: T, f: (T, T) -> int): (r: seq<T>)
    ensures |r| == |s| + 1
  {
    if s == [] || f(s[0], d) >= 0 then [d] + s else [s[0]] + Inserted(s[1..], d, f)
  }

  /** `sdp_list_remove` on sequences: without the first occurrence of `d`. */
  function Removed<T(==)>(s: seq<T>, d: T): seq<T> {
    if s == [] then [] else if s[0] == d then s[1..] else [s[0]] + Removed(s[1..], d)
  }

  /** `sdp_list_find` on sequences; `f` is the comparison with the searched key. */
  function Found<T>(s: seq<T>, f: T -> int): Option<T> {
    if s == [] then None else if f(s[0]) == 0 then Some(s[0]) else Found(s[1..], f)
  }

  /** How many elements at the front are below `d`. */
  function InsertionPoint<T>(s: seq<T>, d: T, f: (T, T) -> int): (k: nat)
    ensures k <= |s|
  {
    if s == [] || f(s[0], d) >= 0 then 0 else 1 + InsertionPoint(s[1..], d, f)
  }

  lemma {:induction false} InsertedSplit<T>(s: seq<T>, d: T, f: (T, T) -> int, k: nat)
    requires k <= |s|
    requires forall i :: 0 <= i < k ==> f(s[i], d) < 0
    requires k < |s| ==> f(s[k], d) >= 0
    ensures Inserted(s, d, f) == s[..k] + [d] + s[k..] && InsertionPoint(s, d, f) == k
  {
    if k > 0 {
      InsertedSplit(s[1..], d, f, k - 1);
      assert s[1..][..k - 1] == s[1..k] && s[1..][k - 1..] == s[k..];
      assert s[..k] == [s[0]] + s[1..k];
    }
  }

  /** Where the new element ends up. */
  lemma {:induction false} InsertedAt<T>(s: seq<T>, d: T, f: (T, T) -> int) returns (k: nat)
    ensures k <= |s| && forall i :: 0 <= i < k ==> f(s[i], d) < 0
    ensures k < |s| ==> f(s[k], d) >= 0
    ensures Inserted(s, d, f) == s[..k] + [d] + s[k..]
  {
    k := 0;
    while k < |s| && f(s[k], d) < 0
      invariant k <= |s| && forall i :: 0 <= i < k ==> f(s[i], d) < 0
    {
      k := k + 1;
    }
    InsertedSplit(s, d, f, k);
  }

  lemma {:induction false} RemovedSplit<T>(s: seq<T>, d: T, k: nat)
    requires k <= |s| && d !in s[..k]
    requires k < |s| ==> s[k] == d
    ensures Removed(s, d) == if k < |s| then s[..k] + s[k + 1..] else s
  {
    if s != [] && k > 0 {
      assert s[0] in s[..k];
      assert s[1..][..k - 1] == s[..k][1..];
      RemovedSplit(s[1..], d, k - 1);
      assert s == [s[0]] + s[1..];
      if k < |s| {
        assert s[1..][k..] == s[k + 1..];
        assert s[..k] == [s[0]] + s[..k][1..];
      }
    }
  }

  /** Which element a search stops at, if any. */
  lemma {:induction false} FoundAt<T>(s: seq<T>, f: T -> int) returns (k: nat)
    ensures k <= |s| && forall i :: 0 <= i < k ==> f(s[i]) != 0
    ensures k < |s| ==> f(s[k]) == 0
    ensures Found(s, f) == if k < |s| then Some(s[k]) else None
  {
    k := 0;
    while k < |s| && f(s[k]) != 0
      invariant k <= |s| && forall i :: 0 <= i < k ==> f(s[i]) != 0
    {
      k := k + 1;
    }
    FoundSplit(s, f, k);
  }

  lemma {:induction false} FoundSplit<T>(s: seq<T>, f: T -> int, k: nat)
    requires k <= |s|
    requires forall i :: 0 <= i < k ==> f(s[i]) != 0
    requires k < |s| ==> f(s[k]) == 0
    ensures Found(s, f) == if k < |s| then Some(s[k]) else None
  {
    if k > 0 {
      FoundSplit(s[1..], f, k - 1);
    }
  }

  ghost predicate StrictlySorted<T>(s: seq<T>, key: T -> int) {
    forall i, j :: 0 <= i < j < |s| ==> key(s[i]) < key(s[j])
  }

  ghost function Elems<T>(s: seq<T>): set<T> {
    set x | x in s
  }

  /** Inserting between a lower prefix and a higher suffix keeps the order. */
  lemma SortedInsert<T>(s: seq<T>, k: nat, d: T, key: T -> int)
    requires StrictlySorted(s, key) && k <= |s|
    requires k > 0 ==> key(s[k - 1]) < key(d)
    requires k < |s| ==> key(d) < key(s[k])
    ensures StrictlySorted(s[..k] + [d] + s[k..], key)
  {
    var r := s[..k] + [d] + s[k..];
    assert forall i :: 0 <= i < k ==> key(s[i]) < key(d);
    assert forall i :: k <= i < |s| ==> key(d) < key(s[i]);
    forall i, j | 0 <= i < j < |r| ensures key(r[i]) < key(r[j]) {
      assert i < k ==> r[i] == s[i];
      assert i > k ==> r[i] == s[i - 1];
      assert j < k ==> r[j] == s[j];
      assert j > k ==> r[j] == s[j - 1];
    }
  }

  lemma SortedRemove<T>(s: seq<T>, k: nat, key: T -> int)
    requires StrictlySorted(s, key) && k < |s|
    ensures StrictlySorted(s[..k] + s[k + 1..], key)
  {
    var r := s[..k] + s[k + 1..];
    forall i, j | 0 <= i < j < |r| ensures key(r[i]) < key(r[j]) {
      assert r[i] == s[if i < k then i else i + 1];
      assert r[j] == s[if j < k then j else j + 1];
    }
  }

  lemma InsertedElems<T>(s: seq<T>, d: T, f: (T, T) -> int)
    ensures Elems(Inserted(s, d, f)) == Elems(s) + {d}
  {
    var k := InsertedAt(s, d, f);
    assert s == s[..k] + s[k..];
  }

  /** Two strictly sorted sequences with the same elements are equal. */
  lemma {:induction false} SortedUnique<T>(s: seq<T>, t: seq<T>, key: T -> int)
    requires StrictlySorted(s, key) && StrictlySorted(t, key) && Elems(s) == Elems(t)
    ensures s == t
  {
    assert (s != [] ==> s[0] in Elems(s)) && (t != [] ==> t[0] in Elems(t));
    if s != [] {
      assert s[0] == t[0];
      assert s == [s[0]] + s[1..] && t == [t[0]] + t[1..];
      forall x ensures x in Elems(s[1..]) <==> x in Elems(t[1..]) {
        assert x in Elems(s) <==> x in Elems(t);
      }
      SortedUnique(s[1..], t[1..], key);
    }
  }

  ghost function Datas<T>(ns: seq<ListNode<T>>): (s: seq<T>)
    ensures |s| == |ns|
  {
    seq(|ns|, i requires 0 <= i < |ns| => ns[i].data)
  }

  lemma DatasConcat<T>(a: seq<ListNode<T>>, b: seq<ListNode<T>>)
    ensures Datas(a + b) == Datas(a) + Datas(b)
  {
  }

  lemma DatasSlice<T>(a: seq<ListNode<T>>, k: nat)
    requires k <= |a|
    ensures Datas(a[..k]) == Datas(a)[..k] && Datas(a[k..]) == Datas(a)[k..]
  {
  }

  /** A list field of a record: the head pointer together with the chain it starts. */
  class List<T(==)> {
    var head: ListNode?<T>
    ghost var nodes: seq<ListNode<T>>

    ghost predicate Valid()
      reads this, nodes
    {
      && (if nodes == [] then head == null else head == nodes[0] && nodes[|nodes| - 1].next == null)
      && (forall i {:trigger nodes[i].next} :: 0 <= i < |nodes| - 1 ==> nodes[i].next == nodes[i + 1])
      && forall i, j :: 0 <= i < j < |nodes| ==> nodes[i] != nodes[j]
    }

    /** The pointer that should lead to position `i`. */
    ghost function Link(i: nat): ListNode?<T>
      reads this
    {
      if i < |nodes| then nodes[i] else null
    }

    ghost function Repr(): set<object>
      reads this
    {
      set n | n in nodes
    }

    ghost function Contents(): (s: seq<T>)
      reads this
      ensures |s| == |nodes|
    {
      Datas(nodes)
    }

    constructor ()
      ensures Valid() && Contents() == [] && nodes == []
    {
      head, nodes := null, [];
    }

    method InsertSorted(d: T, f: (T, T) -> int)
      requires Valid()
      modifies this, Repr()
      ensures Valid() && fresh(Repr() - old(Repr()))
      ensures Contents() == Inserted(old(Contents()), d, f)
      ensures var k := InsertionPoint(old(Contents()), d, f);
              k < |nodes| && fresh(nodes[k]) && nodes == old(nodes)[..k] + [nodes[k]] + old(nodes)[k..]
    {
      var q: ListNode?<T>, p := null, head;
      ghost var k := 0;
      while p != null
        invariant k <= |nodes| && p == Link(k)
        invariant q == if k == 0 then null else nodes[k - 1]
        invariant forall i :: 0 <= i < k ==> f(Contents()[i], d) < 0
        decreases |nodes| - k
      {
        if f(p.data, d) >= 0 {
          break;
        }
        q, p, k := p, p.next, k + 1;
      }
      InsertedSplit(Contents(), d, f, k);
      Splice(q, p, d, k);
    }

    /** A new node between `q` and `p`; at the head if there is no `q`. */
    method Splice(q: ListNode?<T>, p: ListNode?<T>, d: T, ghost k: nat)
      requires Valid() && k <= |nodes| && p == Link(k)
      requires q == if k == 0 then null else nodes[k - 1]
      modifies this, Repr()
      ensures Valid() && fresh(Repr() - old(Repr()))
      ensures Contents() == old(Contents())[..k] + [d] + old(Contents())[k..]
      ensures k < |nodes| && fresh(nodes[k]) && nodes == old(nodes)[..k] + [nodes[k]] + old(nodes)[k..]
    {
      var n := new ListNode(d, p);
      if q != null {
        q.next := n;
      } else {
        head := n;
      }
      assert Datas(nodes[..k] + [n] + nodes[k..]) == Datas(nodes)[..k] + [d] + Datas(nodes)[k..] by {
        DatasSlice(nodes, k);
        DatasConcat(nodes[..k], [n]);
        DatasConcat(nodes[..k] + [n], nodes[k..]);
      }
      nodes := nodes[..k] + [n] + nodes[k..];
    }

    method Remove(d: T)
      requires Valid()
      modifies this, Repr()
      ensures Valid() && Repr() <= old(Repr())
      ensures Contents() == Removed(old(Contents()), d)
    {
      var q: ListNode?<T>, p := null, head;
      ghost var k := 0;
      while p != null
        invariant k <= |nodes| && p == Link(k)
        invariant q == if k == 0 then null else nodes[k - 1]
        invariant forall i :: 0 <= i < k ==> Contents()[i] != d
        invariant Valid() && nodes == old(nodes)
        decreases |nodes| - k
      {
        if p.data == d {
          break;
        }
        q, p, k := p, p.next, k + 1;
      }
      RemovedSplit(Contents(), d, k);
      if p != null {
        Unlink(q, p, k);
      }
    }

    /** `p`, which follows `q`, leaves the chain. */
    method Unlink(q: ListNode?<T>, p: ListNode<T>, ghost k: nat)
      requires Valid() && k < |nodes| && p == nodes[k]
      requires q == if k == 0 then null else nodes[k - 1]
      modifies this, Repr()
      ensures Valid() && Repr() <= old(Repr())
      ensures Contents() == old(Contents())[..k] + old(Contents())[k + 1..]
    {
      if q != null {
        q.next := p.next;
      } else {
        head := p.next;
      }
      assert Datas(nodes[..k] + nodes[k + 1..]) == Datas(nodes)[..k] + Datas(nodes)[k + 1..] by {
        DatasSlice(nodes, k);
        DatasSlice(nodes, k + 1);
        DatasConcat(nodes[..k], nodes[k + 1..]);
      }
      nodes := nodes[..k] + nodes[k + 1..];
    }

    method Find(f: T -> int) returns (r: Option<T>)
      requires Valid()
      ensures r == Found(Contents(), f)
    {
      var p := head;
      ghost var k := 0;
      while p != null
        invariant k <= |nodes| && p == Link(k)
        invariant forall i :: 0 <= i < k ==> f(Contents()[i]) != 0
        decreases |nodes| - k
      {
        if f(p.data) == 0 {
          FoundSplit(Contents(), f, k);
          return Some(p.data);
        }
        p, k := p.next, k + 1;
      }
      FoundSplit(Contents(), f, k);
      r := None;
    }
  }
}
