/** Service records: the attribute list kept as a map, and the record as one framed sequence. */
module SdpRecord {
  import opened Bytes
  import opened SdpList

  datatype Attribute<D> = Attribute(id: nat, data: D)

  /** `sdp_attrid_comp_func`. */
  function AttrCmp<D>(a: Attribute<D>, b: Attribute<D>): int {
    a.id - b.id
  }

  function AttrKey<D>(a: Attribute<D>): int {
    a.id
  }

  /** What the attribute list stands for; the first entry of an id is the one a search finds. */
  function AsMap<D>(s: seq<Attribute<D>>): map<nat, D> {
    if s == [] then map[] else AsMap(s[1..])[s[0].id := s[0].data]
  }

  ghost predicate SortedById<D>(s: seq<Attribute<D>>) {
    StrictlySorted(s, a => AttrKey(a))
  }

  lemma {:induction false} AsMapEntries<D>(s: seq<Attribute<D>>)
    requires SortedById(s)
    ensures forall id :: id in AsMap(s) <==> exists i :: 0 <= i < |s| && s[i].id == id
    ensures forall i :: 0 <= i < |s| ==> AsMap(s)[s[i].id] == s[i].data
  {
    if s != [] {
      AsMapEntries(s[1..]);
      assert forall i :: 0 < i < |s| ==> s[i] == s[1..][i - 1];
      forall id | id in AsMap(s[1..]) ensures exists i :: 0 <= i < |s| && s[i].id == id {
        var i :| 0 <= i < |s[1..]| && s[1..][i].id == id;
        assert s[i + 1].id == id;
      }
    }
  }

  /** One more entry under a new id is one map update, wherever it stands. */
  lemma {:induction false} AsMapOneMore<D>(s: seq<Attribute<D>>, k: nat, d: Attribute<D>)
    requires k <= |s| && forall i :: 0 <= i < |s| ==> s[i].id != d.id
    ensures AsMap(s[..k] + [d] + s[k..]) == AsMap(s)[d.id := d.data]
    ensures d.id !in AsMap(s)
    decreases |s|
  {
    var r := s[..k] + [d] + s[k..];
    if k == 0 {
      assert r == [d] + s && r[1..] == s;
      if s != [] {
        AsMapOneMore(s[1..], 0, d);
      }
    } else {
      var t := s[1..];
      AsMapOneMore(t, k - 1, d);
      assert r[0] == s[0] && r[1..] == t[..k - 1] + [d] + t[k - 1..];
    }
  }

  lemma InsertAttr<D>(s: seq<Attribute<D>>, d: Attribute<D>)
    requires SortedById(s) && d.id !in AsMap(s)
    ensures var r := Inserted(s, d, AttrCmp<D>);
            SortedById(r) && AsMap(r) == AsMap(s)[d.id := d.data]
  {
    var k := InsertedAt(s, d, AttrCmp<D>);
    AsMapEntries(s);
    assert k > 0 ==> AttrCmp(s[k - 1], d) < 0;
    assert k < |s| ==> AttrCmp(s[k], d) >= 0;
    SortedInsert(s, k, d, a => AttrKey(a));
    AsMapOneMore(s, k, d);
  }

  lemma FindAttr<D>(s: seq<Attribute<D>>, id: nat)
    requires SortedById(s)
    ensures Found(s, a => AttrKey(a) - id) == if id in AsMap(s) then Some(Attribute(id, AsMap(s)[id])) else None
  {
    var k := FoundAt(s, (a: Attribute<D>) => AttrKey(a) - id);
    AsMapEntries(s);
    if k < |s| {
      assert s[k].id == id;
    }
  }

  lemma EntryAt<D>(s: seq<Attribute<D>>, id: nat) returns (k: nat)
    requires SortedById(s) && id in AsMap(s)
    ensures k < |s| && s[k] == Attribute(id, AsMap(s)[id])
  {
    AsMapEntries(s);
    k :| 0 <= k < |s| && s[k].id == id;
  }

  lemma RemoveAt<D>(s: seq<Attribute<D>>, k: nat)
    requires SortedById(s) && k < |s|
    ensures var r := s[..k] + s[k + 1..];
            SortedById(r) && AsMap(r) == AsMap(s) - {s[k].id}
  {
    var r := s[..k] + s[k + 1..];
    forall i | 0 <= i < |r| ensures r[i].id != s[k].id {
      assert r[i] == s[if i < k then i else i + 1];
      assert AttrKey(r[i]) != AttrKey(s[k]);
    }
    SortedRemove(s, k, a => AttrKey(a));
    assert r[..k] + [s[k]] + r[k..] == s;
    AsMapOneMore(r, k, s[k]);
  }

  lemma RemoveAttr<D>(s: seq<Attribute<D>>, id: nat)
    requires SortedById(s) && id in AsMap(s)
    ensures var r := Removed(s, Attribute(id, AsMap(s)[id]));
            SortedById(r) && AsMap(r) == AsMap(s) - {id}
  {
    var k := EntryAt(s, id);
    assert forall i :: 0 <= i < k ==> AttrKey(s[i]) < AttrKey(s[k]);
    RemovedSplit(s, s[k], k);
    RemoveAt(s, k);
  }

  /** `attrlist` of a service record. */
  class Record<D(==)> {
    const attrlist: List<Attribute<D>>

    ghost predicate Valid()
      reads attrlist, attrlist.Repr()
    {
      attrlist.Valid() && SortedById(attrlist.Contents())
    }

    ghost function Attrs(): map<nat, D>
      reads attrlist
    {
      AsMap(attrlist.Contents())
    }

    /** `sdp_record_alloc`. */
    constructor ()
      ensures Valid() && Attrs() == map[] && fresh(attrlist) && fresh(attrlist.Repr())
    {
      attrlist := new List();
    }

    /** `sdp_data_get`. */
    method Get(id: nat) returns (r: Option<Attribute<D>>)
      requires Valid()
      ensures r == if id in Attrs() then Some(Attribute(id, Attrs()[id])) else None
    {
      FindAttr(attrlist.Contents(), id);
      r := attrlist.Find(a => AttrKey(a) - id);
    }

    /** `sdp_attr_add`: refuses an id that is present. */
    method Add(id: nat, d: D) returns (status: int)
      requires Valid()
      modifies attrlist, attrlist.Repr()
      ensures Valid() && fresh(attrlist.Repr() - old(attrlist.Repr()))
      ensures status == if id in old(Attrs()) then -1 else 0
      ensures Attrs() == if id in old(Attrs()) then old(Attrs()) else old(Attrs())[id := d]
      ensures id in old(Attrs()) ==> attrlist.Contents() == old(attrlist.Contents())
    {
      var p := Get(id);
      if p.Some? {
        return -1;
      }
      InsertAttr(attrlist.Contents(), Attribute(id, d));
      attrlist.InsertSorted(Attribute(id, d), AttrCmp<D>);
      status := 0;
    }

    /** `sdp_attr_replace`. */
    method Replace(id: nat, d: D)
      requires Valid()
      modifies attrlist, attrlist.Repr()
      ensures Valid() && fresh(attrlist.Repr() - old(attrlist.Repr()))
      ensures Attrs() == old(Attrs())[id := d]
    {
      hide AsMap;
      Remove(id);
      InsertAttr(attrlist.Contents(), Attribute(id, d));
      attrlist.InsertSorted(Attribute(id, d), AttrCmp<D>);
    }

    /** `sdp_attr_remove`. */
    method Remove(id: nat)
      requires Valid()
      modifies attrlist, attrlist.Repr()
      ensures Valid() && fresh(attrlist.Repr() - old(attrlist.Repr()))
      ensures Attrs() == old(Attrs()) - {id}
    {
      var p := Get(id);
      if p.Some? {
        RemoveAttr(attrlist.Contents(), id);
        attrlist.Remove(p.value);
      }
    }
  }
}
