// For which priced hours the spaced picks always find one, whatever the prices
// (stampzilla-tibber/model.go).
module TibberPicks {
  import opened Sequences
  import opened Tibber

  // Hours of which each could be picked behind the one before it.
  predicate Link(hours: set<int>, start: int, step: int, c: seq<int>, i: nat)
    requires i < |c|
  {
    var from := From(start, step, c, i);
    c[i] in hours && from <= c[i] <= from + step
  }

  ghost predicate Chain(hours: set<int>, start: int, step: int, c: seq<int>) {
    forall i :: 0 <= i < |c| ==> Link(hours, start, step, c, i)
  }

  // Some hour could be picked next.
  ghost predicate Extends(hours: set<int>, start: int, step: int, c: seq<int>) {
    exists t :: t in hours && From(start, step, c, |c|) <= t <= From(start, step, c, |c|) + step
  }

  ghost predicate NoDeadEnd(hours: set<int>, start: int, step: int, n: nat) {
    forall c :: Chain(hours, start, step, c) && |c| < n ==> Extends(hours, start, step, c)
  }

  ghost predicate AllPriced(hours: set<int>, picks: seq<int>) {
    forall i :: 0 <= i < |picks| ==> picks[i] in hours
  }

  ghost predicate AlwaysPriced(hours: set<int>, start: int, step: int, n: nat) {
    forall q: Book, picks :: q.Keys == hours && |picks| == n && Picks(q, start, step, picks) ==> AllPriced(hours, picks)
  }

  // ---- without dead ends every pick is priced ---------------------------------------

  lemma {:induction false} PicksAreChain(q: Book, start: int, step: int, picks: seq<int>, i: nat)
    requires i <= |picks| && Picks(q, start, step, picks) && NoDeadEnd(q.Keys, start, step, |picks|)
    ensures Chain(q.Keys, start, step, picks[..i])
  {
    if i > 0 {
      PicksAreChain(q, start, step, picks, i - 1);
      LinkedPick(q, start, step, picks, i - 1);
      var c := picks[..i];
      forall j | 0 <= j < i ensures Link(q.Keys, start, step, c, j) {
        assert From(start, step, c, j) == From(start, step, picks, j);
        if j < i - 1 {
          var b := picks[..i - 1];
          assert From(start, step, b, j) == From(start, step, picks, j);
          assert Link(q.Keys, start, step, b, j);
        }
      }
    }
  }

  lemma LinkedPick(q: Book, start: int, step: int, picks: seq<int>, i: nat)
    requires i < |picks| && Picks(q, start, step, picks) && NoDeadEnd(q.Keys, start, step, |picks|)
    requires Chain(q.Keys, start, step, picks[..i])
    ensures Link(q.Keys, start, step, picks, i)
  {
    var c, from := picks[..i], From(start, step, picks, i);
    assert From(start, step, c, i) == from;
    assert Extends(q.Keys, start, step, c);
    var t :| t in q.Keys && from <= t <= from + step;
    assert Within(q, from, from + step, t);
    assert PickAt(q, start, step, picks, i);
  }

  // ---- at a dead end some prices lead there ---------------------------------------------

  // The hours of the chain are free, all others cost the same.
  function Marked(hours: set<int>, c: seq<int>): (q: Book)
    ensures q.Keys == hours
  {
    map t | t in hours :: Price(t, if t in c then 0.0 else 1.0)
  }

  lemma {:induction false} ChainGrows(hours: set<int>, start: int, step: int, c: seq<int>, j: nat, i: nat)
    requires Chain(hours, start, step, c) && j <= i < |c|
    ensures step >= 0 && c[j] <= c[i]
    decreases i
  {
    assert Link(hours, start, step, c, i);
    if j < i {
      ChainGrows(hours, start, step, c, j, i - 1);
    }
  }

  // Within its window a link is the earliest of the chain.
  lemma LinkIsEarliest(hours: set<int>, start: int, step: int, c: seq<int>, i: nat, j: nat)
    requires Chain(hours, start, step, c) && i < |c| && j < |c|
    requires From(start, step, c, i) <= c[j] <= From(start, step, c, i) + step
    ensures c[i] <= c[j]
  {
    assert Link(hours, start, step, c, i);
    if i <= j {
      ChainGrows(hours, start, step, c, i, j);
    } else {
      ChainGrows(hours, start, step, c, j, i - 1);
    }
  }

  lemma ChainIsPicked(hours: set<int>, start: int, step: int, c: seq<int>)
    requires Chain(hours, start, step, c)
    ensures Picks(Marked(hours, c), start, step, c)
  {
    var q := Marked(hours, c);
    forall i | 0 <= i < |c| ensures PickAt(q, start, step, c, i) {
      LinkIsPicked(hours, start, step, c, i);
    }
  }

  lemma LinkIsPicked(hours: set<int>, start: int, step: int, c: seq<int>, i: nat)
    requires Chain(hours, start, step, c) && i < |c|
    ensures PickAt(Marked(hours, c), start, step, c, i)
  {
    var q, from := Marked(hours, c), From(start, step, c, i);
    assert Link(hours, start, step, c, i);
    assert Within(q, from, from + step, c[i]);
    assert c[i] in c && q[c[i]] == Price(c[i], 0.0);
    forall u | Within(q, from, from + step, u) ensures Cheaper(q[c[i]], q[u]) {
      if u in c {
        var j :| 0 <= j < |c| && c[j] == u;
        LinkIsEarliest(hours, start, step, c, i, j);
      }
    }
    assert Cheapest(q, from, from + step, c[i]);
  }

  lemma {:induction false} LeastPrice(ps: set<Price>) returns (p: Price)
    requires ps != {}
    ensures p in ps && forall u :: u in ps ==> Cheaper(p, u)
    decreases |ps|
  {
    var first :| first in ps;
    var rest := ps - {first};
    assert forall v :: v in ps ==> v == first || v in rest;
    p := first;
    if rest != {} {
      var u := LeastPrice(rest);
      if !Cheaper(first, u) {
        p := u;
      }
    }
  }

  // Every search has an answer.
  lemma FoundExists(q: Book, from: int, to: int) returns (t: int)
    ensures Found(q, from, to, t)
  {
    if Empty(q, from, to) {
      t := ZERO;
    } else {
      var ps := set u | u in q.Keys && Within(q, from, to, u) :: q[u];
      var u :| Within(q, from, to, u);
      assert q[u] in ps;
      var p := LeastPrice(ps);
      t := p.time;
      assert forall v :: Within(q, from, to, v) ==> q[v] in ps;
    }
  }

  lemma {:induction false} MorePicks(q: Book, start: int, step: int, picks: seq<int>, n: nat) returns (all: seq<int>)
    requires Picks(q, start, step, picks) && |picks| <= n
    ensures Picks(q, start, step, all) && |all| == n && picks <= all
    decreases n - |picks|
  {
    if |picks| == n {
      all := picks;
    } else {
      var from := From(start, step, picks, |picks|);
      var next := FoundExists(q, from, from + step);
      PicksSnoc(q, start, step, picks, next);
      all := MorePicks(q, start, step, picks + [next], n);
    }
  }

  lemma DeadEndReached(hours: set<int>, start: int, step: int, c: seq<int>, n: nat) returns (picks: seq<int>)
    requires ZERO !in hours && Chain(hours, start, step, c) && |c| < n && !Extends(hours, start, step, c)
    ensures Picks(Marked(hours, c), start, step, picks) && |picks| == n && !AllPriced(hours, picks)
  {
    var q := Marked(hours, c);
    ChainIsPicked(hours, start, step, c);
    picks := MorePicks(q, start, step, c, n);
    var from := From(start, step, picks, |c|);
    assert from == From(start, step, c, |c|);
    assert PickAt(q, start, step, picks, |c|);
    assert Empty(q, from, from + step);
    assert picks[|c|] == ZERO;
  }

  // Given which hours are priced: all of n picks are priced hours, whatever the prices are,
  // if and only if every shorter chain of them has an hour to go on with.
  lemma PicksAlwaysPricedIff(hours: set<int>, start: int, step: int, n: nat)
    requires ZERO !in hours
    ensures AlwaysPriced(hours, start, step, n) <==> NoDeadEnd(hours, start, step, n)
  {
    if NoDeadEnd(hours, start, step, n) {
      forall q: Book, picks | q.Keys == hours && |picks| == n && Picks(q, start, step, picks)
        ensures AllPriced(hours, picks)
      {
        PicksAreChain(q, start, step, picks, n);
        assert picks[..n] == picks;
        forall i | 0 <= i < n ensures picks[i] in hours {
          assert Link(hours, start, step, picks, i);
        }
      }
    } else {
      var c :| Chain(hours, start, step, c) && |c| < n && !Extends(hours, start, step, c);
      var picks := DeadEndReached(hours, start, step, c, n);
      assert Marked(hours, c).Keys == hours;
    }
  }
}
