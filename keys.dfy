/** Row ids: the autoincrement id an insert receives, and the row `findFirst` picks. */
module Keys {
  type Id = int

  /** Some element of a set that is not empty. */
  lemma Pick<T>(s: set<T>) returns (x: T)
    requires s != {}
    ensures x in s
  {
    if forall y :: y !in s {
      assert false;
    }
    x :| x in s;
  }

  predicate IsMax(keys: set<Id>, m: Id) { m in keys && forall j :: j in keys ==> j <= m }

  predicate IsMin(keys: set<Id>, m: Id) { m in keys && forall j :: j in keys ==> m <= j }

  /** The autoincrement id the next insert receives: above every id in use. */
  function FreshKey(keys: set<Id>): (k: Id)
    ensures k >= 1 && forall j :: j in keys ==> j < k
  {
    if keys == {} then 1
    else
      var m := MaxKey(keys);
      if m + 1 >= 1 then m + 1 else 1
  }

  function MaxKey(keys: set<Id>): (m: Id)
    requires keys != {}
    ensures IsMax(keys, m)
  {
    HasMax(keys);
    var m :| IsMax(keys, m);
    m
  }

  /** The ids a run of `m` inserts receives from `base` on. */
  function Run(base: Id, m: nat): (r: set<Id>)
    ensures forall j :: j in r <==> base <= j < base + m
  {
    if m == 0 then {} else Run(base, m - 1) + {base + m - 1}
  }

  /** The row `findFirst` returns when several match: modelled as the lowest id. */
  function MinKey(keys: set<Id>): (m: Id)
    requires keys != {}
    ensures IsMin(keys, m)
  {
    HasMin(keys);
    var m :| IsMin(keys, m);
    m
  }

  lemma HasMax(keys: set<Id>)
    requires keys != {}
    ensures exists m :: IsMax(keys, m)
  {
    var m := MaxOf(keys);
  }

  lemma HasMin(keys: set<Id>)
    requires keys != {}
    ensures exists m :: IsMin(keys, m)
  {
    var m := MinOf(keys);
  }

  lemma {:induction false} MaxOf(keys: set<Id>) returns (top: Id)
    requires keys != {}
    ensures IsMax(keys, top)
    decreases |keys|
  {
    var x := Pick(keys);
    var rest := keys - {x};
    if rest == {} {
      top := x;
    } else {
      var m := MaxOf(rest);
      top := if m < x then x else m;
    }
    forall j | j in keys ensures j <= top { assert j == x || j in rest; }
  }

  lemma {:induction false} MinOf(keys: set<Id>) returns (bottom: Id)
    requires keys != {}
    ensures IsMin(keys, bottom)
    decreases |keys|
  {
    var x := Pick(keys);
    var rest := keys - {x};
    if rest == {} {
      bottom := x;
    } else {
      var m := MinOf(rest);
      bottom := if x < m then x else m;
    }
    forall j | j in keys ensures bottom <= j { assert j == x || j in rest; }
  }

  /** The order a query returns a set of rows in: each one exactly once. */
  predicate Enumerates(order: seq<Id>, ids: set<Id>) {
    (forall i :: 0 <= i < |order| ==> order[i] in ids)
    && (forall id :: id in ids ==> id in order)
    && (forall i, j :: 0 <= i < j < |order| ==> order[i] != order[j])
  }

  /** A sequence without repeats has as many elements as it has positions. */
  lemma {:induction false} DistinctCount(order: seq<Id>)
    requires forall i, j :: 0 <= i < j < |order| ==> order[i] != order[j]
    ensures |set x | x in order| == |order|
    decreases |order|
  {
    if order != [] {
      DistinctCount(order[1..]);
      var rest := set x | x in order[1..];
      assert (set x | x in order) == rest + {order[0]};
      assert order[0] !in rest;
    }
  }

  /** A loop over the rows a query returned runs once per row. */
  lemma EnumeratesCount(order: seq<Id>, ids: set<Id>)
    requires Enumerates(order, ids)
    ensures |order| == |ids|
  {
    DistinctCount(order);
    forall x ensures x in (set y | y in order) <==> x in ids {
      if x in order {
        var i :| 0 <= i < |order| && order[i] == x;
      }
    }
    assert (set x | x in order) == ids;
  }
}
