/**
  Why a `BTreeMap` checksums the same however it was built: the map keeps its
  entries in ascending key order, so its iteration sequence is determined by
  its contents alone.  `Insert` is `BTreeMap::insert`, `Build` a map filled
  by inserting pairs one after another.
 */
module BTreeMaps {
  import opened Bytes
  import opened Text
  import opened Values

  /** The key-to-value mapping an entry sequence stands for. */
  function Contents(es: seq<Entry>): map<seq<u8>, Value>
  {
    if es == [] then map[] else Contents(es[1..])[es[0].key := es[0].value]
  }

  /** The mapping an association list denotes when later pairs override earlier ones. */
  function Assoc(ps: seq<Entry>): map<seq<u8>, Value>
  {
    if ps == [] then map[] else Assoc(ps[..|ps| - 1])[ps[|ps| - 1].key := ps[|ps| - 1].value]
  }

  /** Every key of es lies strictly above k. */
  predicate Above(k: seq<u8>, es: seq<Entry>)
  {
    forall i :: 0 <= i < |es| ==> Less(k, es[i].key)
  }

  lemma HeadKeyIn(es: seq<Entry>)
    ensures es != [] ==> es[0].key in Contents(es)
  {
  }

  /** Every key in the mapping comes from some entry. */
  lemma {:induction false} KeyHasEntry(es: seq<Entry>, k: seq<u8>)
    requires k in Contents(es)
    ensures exists j :: 0 <= j < |es| && es[j].key == k
  {
    if es[0].key != k {
      KeyHasEntry(es[1..], k);
      var j :| 0 <= j < |es[1..]| && es[1..][j].key == k;
      assert es[j + 1].key == k;
    }
  }

  lemma AboveNotIn(k: seq<u8>, es: seq<Entry>)
    requires Above(k, es)
    ensures k !in Contents(es)
  {
    if k in Contents(es) {
      KeyHasEntry(es, k);
      var j :| 0 <= j < |es| && es[j].key == k;
      LessIrreflexive(k);
    }
  }

  lemma AscendingCons(e: Entry, es: seq<Entry>)
    requires Ascending(es) && Above(e.key, es)
    ensures Ascending([e] + es)
  {
    var r := [e] + es;
    forall i, j | 0 <= i < j < |r|
      ensures Less(r[i].key, r[j].key)
    {
      if i > 0 {
        assert r[i] == es[i - 1] && r[j] == es[j - 1];
      }
    }
  }

  /** The first key of an ascending sequence lies below all the others. */
  lemma AscendingHead(es: seq<Entry>)
    requires Ascending(es) && es != []
    ensures Ascending(es[1..]) && Above(es[0].key, es[1..])
  {
    forall i | 0 <= i < |es[1..]|
      ensures Less(es[0].key, es[1..][i].key)
    {
      assert es[1..][i] == es[i + 1];
    }
  }

  lemma {:induction false} InsertStaysAbove(es: seq<Entry>, k: seq<u8>, v: Value, b: seq<u8>)
    requires Ascending(es) && Above(b, es) && Less(b, k)
    ensures Above(b, Insert(es, k, v))
    decreases |es|, 1
  {
    if es != [] && es[0].key != k && !Less(k, es[0].key) {
      AscendingHead(es);
      InsertStaysAbove(es[1..], k, v, b);
      var r := Insert(es[1..], k, v);
      forall i | 0 <= i < |[es[0]] + r|
        ensures Less(b, ([es[0]] + r)[i].key)
      {
        if i > 0 {
          assert ([es[0]] + r)[i] == r[i - 1];
        }
      }
    }
  }

  /**
    `BTreeMap::insert`: the entry for k takes the value v, in place when k is
    present, otherwise at its position in key order.
   */
  function Insert(es: seq<Entry>, k: seq<u8>, v: Value): (r: seq<Entry>)
    requires Ascending(es)
    ensures Ascending(r)
    ensures Contents(r) == Contents(es)[k := v]
    decreases |es|, 0
  {
    if es == [] then
      [Entry(k, v)]
    else if es[0].key == k then
      AscendingHead(es);
      AscendingCons(Entry(k, v), es[1..]);
      assert ([Entry(k, v)] + es[1..])[1..] == es[1..];
      [Entry(k, v)] + es[1..]
    else if Less(k, es[0].key) then
      AscendingHead(es);
      forall i | 0 <= i < |es| ensures Less(k, es[i].key) {
        if i > 0 {
          LessTransitive(k, es[0].key, es[i].key);
        }
      }
      AscendingCons(Entry(k, v), es);
      assert ([Entry(k, v)] + es)[1..] == es;
      [Entry(k, v)] + es
    else
      AscendingHead(es);
      LessTotal(k, es[0].key);
      var rest := Insert(es[1..], k, v);
      InsertStaysAbove(es[1..], k, v, es[0].key);
      AscendingCons(es[0], rest);
      assert ([es[0]] + rest)[1..] == rest;
      [es[0]] + rest
  }

  /** A map filled by inserting the pairs of ps in order. */
  function Build(ps: seq<Entry>): (r: seq<Entry>)
    ensures Ascending(r)
    ensures Contents(r) == Assoc(ps)
  {
    if ps == [] then [] else Insert(Build(ps[..|ps| - 1]), ps[|ps| - 1].key, ps[|ps| - 1].value)
  }

  /** Two ascending entry sequences with the same contents are the same sequence. */
  lemma {:induction false} AscendingUnique(a: seq<Entry>, b: seq<Entry>)
    requires Ascending(a) && Ascending(b)
    requires Contents(a) == Contents(b)
    ensures a == b
    decreases |a|
  {
    if a != [] {
      assert a[0].key in Contents(b);
      assert b != [];
      var ka, kb := a[0].key, b[0].key;
      AscendingHead(a);
      AscendingHead(b);
      if ka != kb {
        KeyHasEntry(b, ka);
        KeyHasEntry(a, kb);
        var i :| 0 <= i < |b| && b[i].key == ka;
        var j :| 0 <= j < |a| && a[j].key == kb;
        assert i > 0 && j > 0;
        assert Less(kb, ka) && Less(ka, kb);
        LessAsymmetric(ka, kb);
      }
      AboveNotIn(ka, a[1..]);
      AboveNotIn(kb, b[1..]);
      assert Contents(a[1..]) == Contents(a) - {ka};
      assert Contents(b[1..]) == Contents(b) - {kb};
      AscendingUnique(a[1..], b[1..]);
      assert a == [a[0]] + a[1..] && b == [b[0]] + b[1..];
    } else {
      HeadKeyIn(b);
    }
  }

  /**
    Maps filled in different orders but ending with the same contents hold
    the same entry sequence, so they encode to the same bytes.
   */
  lemma InsertionOrderIrrelevant(p1: seq<Entry>, p2: seq<Entry>)
    requires Assoc(p1) == Assoc(p2)
    ensures Build(p1) == Build(p2)
    ensures Enc(BTreeMap(Build(p1))) == Enc(BTreeMap(Build(p2)))
  {
    AscendingUnique(Build(p1), Build(p2));
  }

  /** Inserting two different keys in either order gives the same map. */
  lemma TwoInsertsCommute(k1: seq<u8>, v1: Value, k2: seq<u8>, v2: Value)
    requires k1 != k2
    ensures Build([Entry(k1, v1), Entry(k2, v2)]) == Build([Entry(k2, v2), Entry(k1, v1)])
  {
    var p1, p2 := [Entry(k1, v1), Entry(k2, v2)], [Entry(k2, v2), Entry(k1, v1)];
    assert p1[..1] == [Entry(k1, v1)] && p2[..1] == [Entry(k2, v2)];
    assert p1[..1][..0] == [] && p2[..1][..0] == [];
    assert Assoc(p1[..1]) == map[k1 := v1] && Assoc(p2[..1]) == map[k2 := v2];
    assert Assoc(p1) == map[k1 := v1][k2 := v2];
    assert Assoc(p2) == map[k2 := v2][k1 := v1];
    InsertionOrderIrrelevant(p1, p2);
  }
}
