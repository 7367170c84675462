// Sequences used throughout: flattening, and the order in which a Go map is ranged
// over, which visits every key once and is otherwise arbitrary.
module Sequences {
  datatype Option<T> = None | Some(value: T)

  lemma Regroup<T>(x: seq<T>, y: seq<T>, z: seq<T>)
    ensures x + y + z == x + (y + z)
  {
  }

  function Flatten<T>(ss: seq<seq<T>>): seq<T> {
    if ss == [] then [] else ss[0] + Flatten(ss[1..])
  }

  lemma {:induction false} FlattenConcat<T>(a: seq<seq<T>>, b: seq<seq<T>>)
    ensures Flatten(a + b) == Flatten(a) + Flatten(b)
  {
    if a == [] {
      assert a + b == b;
    } else {
      assert (a + b)[0] == a[0] && (a + b)[1..] == a[1..] + b;
      FlattenConcat(a[1..], b);
      Regroup(a[0], Flatten(a[1..]), Flatten(b));
    }
  }

  lemma FlattenSnoc<T>(a: seq<seq<T>>, x: seq<T>)
    ensures Flatten(a + [x]) == Flatten(a) + x
  {
    FlattenConcat(a, [x]);
    assert Flatten([x]) == x + Flatten([x][1..]) == x;
  }

  // ---- ranging over a map -----------------------------------------------------

  ghost predicate Distinct(order: seq<string>) {
    forall i, j :: 0 <= i < j < |order| ==> order[i] != order[j]
  }

  ghost predicate Visits(order: seq<string>, keys: set<string>) {
    Distinct(order) && forall u :: u in order <==> u in keys
  }

  lemma VisitsSnoc(order: seq<string>, keys: set<string>, u: string)
    requires Visits(order, keys) && u !in keys
    ensures Visits(order + [u], keys + {u})
  {
    assert forall i :: 0 <= i < |order| ==> order[i] in order;
  }

  lemma VisitsBoth(a: seq<string>, x: set<string>, b: seq<string>, y: set<string>)
    requires Visits(a, x) && Visits(b, y) && x !! y
    ensures Visits(a + b, x + y)
  {
    assert forall i :: 0 <= i < |a| ==> a[i] in a;
    assert forall i :: 0 <= i < |b| ==> b[i] in b;
  }

  // One more key of a range is done.
  lemma OneFewer<T>(keys: set<T>, todo: set<T>, x: T)
    requires x in todo && todo <= keys
    ensures keys - (todo - {x}) == keys - todo + {x}
    ensures |todo - {x}| < |todo| && todo - {x} <= keys
  {
  }

  lemma NoneLeft<T>(keys: set<T>)
    ensures keys - {} == keys && keys - keys == {}
  {
  }

  // Every set can be ranged over.
  lemma {:induction false} Listing(s: set<string>) returns (order: seq<string>)
    ensures Visits(order, s)
    decreases |s|
  {
    order := [];
    if s != {} {
      var x :| x in s;
      order := Listing(s - {x});
      VisitsSnoc(order, s - {x}, x);
      assert s - {x} + {x} == s;
      order := order + [x];
    }
  }

  // A range that is left early: the keys it would still have visited.
  lemma RestOf(order: seq<string>, keys: set<string>, todo: set<string>) returns (rest: seq<string>)
    requires todo <= keys && Visits(order, keys - todo)
    ensures forall x :: x in rest ==> x in todo
    ensures Visits(order + rest, keys)
  {
    rest := Listing(todo);
    VisitsBoth(order, keys - todo, rest, todo);
    assert keys - todo + todo == keys;
  }

  function Elems(order: seq<string>): set<string> {
    set id | id in order
  }

  lemma DistinctTail(order: seq<string>)
    requires order != [] && Distinct(order)
    ensures order[0] !in order[1..] && Distinct(order[1..])
    ensures Elems(order) == {order[0]} + Elems(order[1..])
  {
    var t := order[1..];
    assert forall i :: 0 <= i < |t| ==> t[i] == order[i + 1];
  }
}
