// Choosing hours by price (stampzilla-tibber/model.go). Times are nanoseconds, prices
// reals; a Go map is ranged over in any order.
module Tibber {
  import opened Sequences

  const HOUR: int := 3_600_000_000_000
  // time.Time{}, midnight at the start of year 1, counted from 1970.
  const ZERO: int := -62_135_596_800_000_000_000

  datatype Price = Price(time: int, total: real)

  // Every price is stored under its own time.
  type Book = m: map<int, Price> | forall t :: t in m ==> m[t].time == t

  // ---- the best window to charge in ------------------------------------------------

  // A missing hour reads as a zero Price.
  function TotalAt(prices: Book, t: int): (total: real)
    ensures t in prices ==> total == prices[t].total
    ensures t !in prices ==> total == 0.0
  {
    if t in prices then prices[t].total else 0.0
  }

  // time.Duration.Round: to the nearest hour, halves away from zero.
  function Round(d: int): int {
    if d < 0 then -RoundUp(-d) else RoundUp(d)
  }

  function RoundUp(d: int): int {
    var r := d % HOUR;
    if r + r < HOUR then d - r else d + (HOUR - r)
  }

  lemma RoundIsNearest(d: int)
    ensures Round(d) % HOUR == 0
    ensures -HOUR <= 2 * (Round(d) - d) <= HOUR
    ensures 2 * (Round(d) - d) == HOUR ==> d > 0
    ensures 2 * (Round(d) - d) == -HOUR ==> d < 0
    ensures Round(-d) == -Round(d)
  {
    RoundUpIsNearest(if d < 0 then -d else d);
  }

  lemma RoundUpIsNearest(d: nat)
    ensures RoundUp(d) % HOUR == 0 && -HOUR < 2 * (RoundUp(d) - d) <= HOUR
    ensures d == 0 ==> RoundUp(d) == 0
    ensures -RoundUp(d) % HOUR == 0
  {
    var q, r := d / HOUR, d % HOUR;
    assert d == q * HOUR + r;
    assert RoundUp(d) == q * HOUR || RoundUp(d) == (q + 1) * HOUR;
  }

  // The price of the hours from t + d up to t + dur.
  function Sum(prices: Book, t: int, d: int, dur: int): real
    decreases dur - d
  {
    if d >= dur then 0.0 else TotalAt(prices, t + d) + Sum(prices, t, d + HOUR, dur)
  }

  ghost predicate IsLast(prices: Book, last: int) {
    last in prices && forall t :: t in prices ==> t <= last
  }

  // A window that may be chosen: from a priced hour not before start, over by the end of
  // the last priced hour.
  predicate Fits(prices: Book, start: int, dur: int, last: int, t: int) {
    t in prices && start <= t && t + dur <= last + HOUR
  }

  // Of two windows the cheaper one, or of equally cheap ones the earlier one.
  predicate Beats(prices: Book, dur: int, t: int, u: int) {
    Sum(prices, t, 0, dur) < Sum(prices, u, 0, dur) || (Sum(prices, t, 0, dur) == Sum(prices, u, 0, dur) && t <= u)
  }

  ghost predicate BestWindow(prices: Book, start: int, dur: int, t: int) {
    exists last :: IsLast(prices, last) && BestBefore(prices, start, dur, last, t)
  }

  ghost predicate BestBefore(prices: Book, start: int, dur: int, last: int, t: int) {
    && Fits(prices, start, dur, last, t)
    && forall u :: Fits(prices, start, dur, last, u) ==> Beats(prices, dur, t, u)
  }

  ghost predicate NoWindow(prices: Book, start: int, dur: int) {
    forall last, t :: IsLast(prices, last) ==> !Fits(prices, start, dur, last, t)
  }

  // ---- the cheapest hours ------------------------------------------------------------

  predicate Within(prices: Book, from: int, to: int, t: int) {
    t in prices && from <= t <= to
  }

  // sort.Slice puts the cheaper first, or the earlier of two that cost the same.
  predicate Cheaper(p: Price, q: Price) {
    p.total < q.total || (p.total == q.total && p.time <= q.time)
  }

  ghost predicate Cheapest(prices: Book, from: int, to: int, t: int) {
    Within(prices, from, to, t) && forall u :: Within(prices, from, to, u) ==> Cheaper(prices[t], prices[u])
  }

  ghost predicate Empty(prices: Book, from: int, to: int) {
    forall t :: !Within(prices, from, to, t)
  }

  // What findCheapest answers: the zero time when there is nothing to choose from.
  ghost predicate Found(prices: Book, from: int, to: int, t: int) {
    if Empty(prices, from, to) then t == ZERO else Cheapest(prices, from, to, t)
  }

  // Where pick i is searched for.
  function From(start: int, step: int, picks: seq<int>, i: nat): int
    requires i <= |picks|
  {
    if i == 0 then start else picks[i - 1] + step
  }

  ghost predicate PickAt(prices: Book, start: int, step: int, picks: seq<int>, i: nat)
    requires i < |picks|
  {
    var from := From(start, step, picks, i);
    Found(prices, from, from + step, picks[i])
  }

  ghost predicate Picks(prices: Book, start: int, step: int, picks: seq<int>) {
    forall i :: 0 <= i < |picks| ==> PickAt(prices, start, step, picks, i)
  }

  lemma PicksSnoc(prices: Book, start: int, step: int, picks: seq<int>, next: int)
    requires Picks(prices, start, step, picks)
    requires var from := From(start, step, picks, |picks|); Found(prices, from, from + step, next)
    ensures Picks(prices, start, step, picks + [next])
  {
    var all := picks + [next];
    forall i | 0 <= i < |all| ensures PickAt(prices, start, step, all, i) {
      assert From(start, step, all, i) == From(start, step, picks, i);
      assert i < |picks| ==> PickAt(prices, start, step, picks, i);
    }
  }

  class Prices {
    var prices: Book

    constructor ()
      ensures prices == map[]
    {
      prices := map[];
    }

    method Add(price: Price)
      modifies this
      ensures prices == old(prices)[price.time := price]
    {
      prices := prices[price.time := price];
    }

    method ClearOld(now: int)
      modifies this
      ensures prices == Cleared(old(prices), now)
      ensures forall t :: t in prices <==> t in old(prices) && t + 86_400_000_000_000 >= now
      ensures forall t :: t in prices ==> prices[t] == old(prices)[t]
    {
      var todo := prices.Keys;
      ghost var was := prices;
      while todo != {}
        invariant todo <= was.Keys
        invariant forall t :: t in prices <==> t in was && (t in todo || t >= now - 24 * HOUR)
        invariant forall t :: t in prices ==> prices[t] == was[t]
        decreases |todo|
      {
        var t :| t in todo;
        todo := todo - {t};
        if now - 24 * HOUR > t {
          prices := prices - {t};
        }
      }
    }

    // None: nothing is priced, and indexing the empty slice panics.
    method Last() returns (last: Option<int>)
      ensures last.None? <==> prices == map[]
      ensures last.Some? ==> IsLast(prices, last.value)
    {
      last := None;
      var todo := prices.Keys;
      while todo != {}
        invariant todo <= prices.Keys
        invariant last.None? <==> todo == prices.Keys
        invariant last.Some? ==> last.value in prices && forall t :: t in prices && t !in todo ==> t <= last.value
        decreases |todo|
      {
        var t :| t in todo;
        todo := todo - {t};
        if last.None? || t > last.value {
          last := Some(t);
        }
      }
    }

    // None: no window fits, and indexing the empty slice panics.
    method CalculateBestChargeHours(start: int, duration: int) returns (best: Option<int>)
      ensures best.None? <==> NoWindow(prices, start, Round(duration))
      ensures best.Some? ==> BestWindow(prices, start, Round(duration), best.value)
    {
      var dur := Round(duration);
      var end := Last();
      if end.None? {
        return None;
      }
      var last := end.value + HOUR;
      var sums: map<int, real> := map[];
      var todo := prices.Keys;
      while todo != {}
        invariant todo <= prices.Keys
        invariant forall t :: t in sums <==> t !in todo && Fits(prices, start, dur, end.value, t)
        invariant forall t :: t in sums ==> sums[t] == Sum(prices, t, 0, dur)
        decreases |todo|
      {
        var t :| t in todo;
        todo := todo - {t};
        if start > t {
          continue;
        }
        var priceSum := SumOf(t, dur);
        if t + dur <= last {
          sums := sums[t := priceSum];
        }
      }
      best := First(sums);
      if best.Some? {
        assert forall u :: Fits(prices, start, dur, end.value, u) ==> u in sums && Beats(prices, dur, best.value, u);
        assert BestBefore(prices, start, dur, end.value, best.value);
      } else {
        LastIsUnique(prices, end.value);
      }
    }

    method SumOf(t: int, dur: int) returns (priceSum: real)
      ensures priceSum == Sum(prices, t, 0, dur)
    {
      var d := 0;
      priceSum := 0.0;
      while d < dur
        invariant priceSum + Sum(prices, t, d, dur) == Sum(prices, t, 0, dur)
        decreases dur - d
      {
        priceSum := priceSum + TotalAt(prices, t + d);
        d := d + HOUR;
      }
    }

    method FindCheapest(from: int, to: int) returns (t: int)
      ensures Found(prices, from, to, t)
      ensures (forall u :: u in prices ==> u < from || to < u) ==> t == -62_135_596_800_000_000_000
      ensures forall u :: u in prices && from <= u <= to ==>
        && t in prices && from <= t <= to && prices[t].total <= prices[u].total
        && (prices[t].total == prices[u].total ==> t <= u)
    {
      var best: Option<Price> := None;
      var todo := prices.Keys;
      while todo != {}
        invariant todo <= prices.Keys
        invariant best.None? ==> forall u :: Within(prices, from, to, u) ==> u in todo
        invariant best.Some? ==> Within(prices, from, to, best.value.time) && prices[best.value.time] == best.value
        invariant best.Some? ==>
          forall u :: Within(prices, from, to, u) && u !in todo ==> Cheaper(best.value, prices[u])
        decreases |todo|
      {
        var u :| u in todo;
        todo := todo - {u};
        var p := prices[u];
        if p.time < from || p.time > to {
          continue;
        }
        if best.None? || p.total < best.value.total || (p.total == best.value.total && p.time < best.value.time) {
          best := Some(p);
        }
      }
      assert forall u :: u in prices && from <= u <= to ==> Within(prices, from, to, u);
      return if best.None? then ZERO else best.value.time;
    }

    method CalculateCheapestTimes(start: int, count: int, hoursBetween: int) returns (picks: seq<int>)
      ensures |picks| == if count < 1 then 1 else count
      ensures Picks(prices, start, hoursBetween * HOUR, picks)
    {
      var step := hoursBetween * HOUR;
      var next := FindCheapest(start, start + step);
      picks := [next];
      PicksSnoc(prices, start, step, [], next);
      var i := 0;
      while i < count - 1
        invariant i == 0 || i <= count - 1
        invariant |picks| == i + 1 && next == picks[i]
        invariant Picks(prices, start, step, picks)
      {
        next := FindCheapest(next + step, next + 2 * step);
        PicksSnoc(prices, start, step, picks, next);
        picks := picks + [next];
        i := i + 1;
      }
    }

    // The sort looks at the price only, so any of the cheapest may come first. None: the
    // slice is empty, and indexing it panics.
    method CalculateCheapestHour(from: int, to: int) returns (hour: Option<int>)
      ensures hour.None? <==> Empty(prices, from, to)
      ensures hour.Some? ==> Within(prices, from, to, hour.value)
      ensures hour.Some? ==>
        forall u :: Within(prices, from, to, u) ==> prices[hour.value].total <= prices[u].total
      ensures hour.None? <==> forall u :: u in prices ==> u < from || to < u
      ensures hour.Some? ==> hour.value in prices && from <= hour.value <= to
      ensures hour.Some? ==>
        forall u :: u in prices && from <= u <= to ==> prices[hour.value].total <= prices[u].total
    {
      hour := None;
      var todo := prices.Keys;
      while todo != {}
        invariant todo <= prices.Keys
        invariant hour.None? ==> forall u :: Within(prices, from, to, u) ==> u in todo
        invariant hour.Some? ==> Within(prices, from, to, hour.value)
        invariant hour.Some? ==>
          forall u :: Within(prices, from, to, u) && u !in todo ==> prices[hour.value].total <= prices[u].total
        decreases |todo|
      {
        var u :| u in todo;
        todo := todo - {u};
        if u < from || u > to {
          continue;
        }
        if hour.None? || prices[u].total <= prices[hour.value].total {
          hour := Some(u);
        }
      }
      assert forall u :: u in prices && from <= u <= to ==> Within(prices, from, to, u);
      assert hour.Some? ==> hour.value in prices && from <= hour.value <= to;
    }
  }

  predicate Earlier(sums: map<int, real>, t: int, u: int)
    requires t in sums && u in sums
  {
    sums[t] < sums[u] || (sums[t] == sums[u] && t <= u)
  }

  // The first of the windows in the order the source sorts them into.
  method First(sums: map<int, real>) returns (first: Option<int>)
    ensures first.None? <==> sums == map[]
    ensures first.Some? ==> first.value in sums
    ensures first.Some? ==> forall u :: u in sums ==> Earlier(sums, first.value, u)
  {
    first := None;
    var todo := sums.Items;
    while todo != {}
      invariant todo <= sums.Items
      invariant first.None? ==> todo == sums.Items
      invariant first.Some? ==> first.value in sums
      invariant first.Some? ==> forall u :: u in sums && (u, sums[u]) !in todo ==> Earlier(sums, first.value, u)
      decreases |todo|
    {
      var kv :| kv in todo;
      todo := todo - {kv};
      if first.None? || kv.1 < sums[first.value] || (kv.1 == sums[first.value] && kv.0 < first.value) {
        first := Some(kv.0);
      }
    }
    assert first.None? ==> forall u :: u in sums ==> (u, sums[u]) in sums.Items;
  }

  // ---- the best window ---------------------------------------------------------------

  lemma LastIsUnique(prices: Book, last: int)
    requires IsLast(prices, last)
    ensures forall l :: IsLast(prices, l) <==> l == last
  {
  }

  // Whatever the order of the map: the answer is determined by the prices.
  lemma BestIsUnique(prices: Book, start: int, dur: int, t: int, u: int)
    requires BestWindow(prices, start, dur, t) && BestWindow(prices, start, dur, u)
    ensures t == u
  {
    var k :| IsLast(prices, k) && BestBefore(prices, start, dur, k, t);
    var l :| IsLast(prices, l) && BestBefore(prices, start, dur, l, u);
    LastIsUnique(prices, k);
    assert Beats(prices, dur, t, u) && Beats(prices, dur, u, t);
  }

  // What is chosen, in terms of the prices: a priced hour not before start whose window is
  // over an hour behind the last price at the latest, and of those the cheapest, of equally
  // cheap ones the earliest.
  lemma BestMeans(prices: Book, start: int, dur: int, last: int, t: int)
    requires last in prices && forall u :: u in prices ==> u <= last
    ensures BestWindow(prices, start, dur, t) <==>
      && t in prices && start <= t && t + dur <= last + 3_600_000_000_000
      && forall u | u in prices && start <= u && u + dur <= last + 3_600_000_000_000 ::
           && Sum(prices, t, 0, dur) <= Sum(prices, u, 0, dur)
           && (Sum(prices, t, 0, dur) == Sum(prices, u, 0, dur) ==> t <= u)
    ensures NoWindow(prices, start, dur) <==>
      forall u :: u in prices && start <= u ==> u + dur > last + 3_600_000_000_000
  {
    LastIsUnique(prices, last);
    if BestWindow(prices, start, dur, t) {
      assert BestBefore(prices, start, dur, last, t);
      forall u | u in prices && start <= u && u + dur <= last + HOUR ensures Beats(prices, dur, t, u) {
        assert Fits(prices, start, dur, last, u);
      }
    } else {
      assert !BestBefore(prices, start, dur, last, t);
    }
    assert forall u :: Fits(prices, start, dur, last, u) <==> u in prices && start <= u && u + dur <= last + HOUR;
  }

  // No hour is missing between the first one considered and the last one priced.
  ghost predicate Hourly(prices: Book, start: int, last: int) {
    forall t :: t in prices && start <= t < last ==> t + HOUR in prices
  }

  // Then a window that fits is priced throughout.
  lemma {:induction false} HourlyWindows(prices: Book, start: int, last: int, t: int, d: int)
    requires IsLast(prices, last) && Hourly(prices, start, last)
    requires t in prices && start <= t && 0 <= d && d % HOUR == 0 && t + d <= last
    ensures t + d in prices
    decreases d
  {
    if d > 0 {
      HourlyWindows(prices, start, last, t, d - HOUR);
    }
  }

  lemma ChosenIsPriced(prices: Book, start: int, duration: int, last: int, t: int, d: int)
    requires IsLast(prices, last) && Hourly(prices, start, last)
    requires BestWindow(prices, start, Round(duration), t)
    requires 0 <= d < Round(duration) && d % HOUR == 0
    ensures t + d in prices
  {
    LastIsUnique(prices, last);
    RoundIsNearest(duration);
    assert Round(duration) - d >= HOUR;
    HourlyWindows(prices, start, last, t, d);
  }

  // ---- what a window costs ---------------------------------------------------------------

  lemma SumOfHour(prices: Book, t: int)
    ensures Sum(prices, t, 0, HOUR) == if t in prices then prices[t].total else 0.0
  {
    assert Sum(prices, t, HOUR, HOUR) == 0.0;
  }

  function TotalOf(ps: seq<Price>): real {
    if ps == [] then 0.0 else ps[0].total + TotalOf(ps[1..])
  }

  // The priced hours of a window, one after the other from t + d.
  predicate PricedBy(prices: Book, t: int, d: int, ps: seq<Price>)
    decreases |ps|
  {
    ps == [] || (t + d in prices && prices[t + d] == ps[0] && PricedBy(prices, t, d + HOUR, ps[1..]))
  }

  // A window over consecutive priced hours costs what they cost together.
  lemma {:induction false} SumOfPriced(prices: Book, t: int, d: int, ps: seq<Price>)
    requires PricedBy(prices, t, d, ps)
    ensures Sum(prices, t, d, d + |ps| * HOUR) == TotalOf(ps)
    decreases |ps|
  {
    if ps != [] {
      assert |ps[1..]| == |ps| - 1;
      assert d + HOUR + |ps[1..]| * HOUR == d + |ps| * HOUR;
      SumOfPriced(prices, t, d + HOUR, ps[1..]);
    }
  }

  // Raising the price of an hour by x raises the windows it lies in by x ...
  lemma {:induction false} SumRaised(prices: Book, t: int, d: int, dur: int, h: int, x: real)
    requires h in prices && t + d <= h < t + dur && (h - (t + d)) % HOUR == 0
    ensures Sum(prices[h := Price(h, prices[h].total + x)], t, d, dur) == Sum(prices, t, d, dur) + x
    decreases dur - d
  {
    if t + d == h {
      SumUntouched(prices, t, d + HOUR, dur, h, x);
    } else {
      assert h - (t + d) >= HOUR && (h - (t + (d + HOUR))) % HOUR == 0;
      SumRaised(prices, t, d + HOUR, dur, h, x);
    }
  }

  // ... and leaves windows it is not an hour of.
  lemma {:induction false} SumUntouched(prices: Book, t: int, d: int, dur: int, h: int, x: real)
    requires h in prices && (h < t + d || h >= t + dur || (h - (t + d)) % HOUR != 0)
    ensures Sum(prices[h := Price(h, prices[h].total + x)], t, d, dur) == Sum(prices, t, d, dur)
    decreases dur - d
  {
    if d < dur {
      SumUntouched(prices, t, d + HOUR, dur, h, x);
    }
  }

  // ---- a missing hour counts as free electricity ----------------------------------------

  // Every hour of the window from t + d up to t + dur has a price.
  predicate PricedThrough(hours: set<int>, t: int, d: int, dur: int)
    decreases dur - d
  {
    d >= dur || (t + d in hours && PricedThrough(hours, t, d + HOUR, dur))
  }

  lemma {:induction false} PricedAt(hours: set<int>, t: int, d: int, dur: int, e: int)
    requires PricedThrough(hours, t, d, dur) && d <= e < dur && (e - d) % HOUR == 0
    ensures t + e in hours
    decreases dur - d
  {
    if d < e {
      assert e - d >= HOUR && (e - (d + HOUR)) % HOUR == 0;
      PricedAt(hours, t, d + HOUR, dur, e);
    }
  }

  function Hours(d: int, dur: int): real
    decreases dur - d
  {
    if d >= dur then 0.0 else 1.0 + Hours(d + HOUR, dur)
  }

  // The same hours, all at the same price.
  function Flat(prices: Book): Book {
    map t | t in prices :: Price(t, 1.0)
  }

  lemma {:induction false} FlatSum(prices: Book, t: int, d: int, dur: int)
    ensures Sum(Flat(prices), t, d, dur) <= Hours(d, dur)
    ensures Sum(Flat(prices), t, d, dur) == Hours(d, dur) <==> PricedThrough(prices.Keys, t, d, dur)
    decreases dur - d
  {
    if d < dur {
      FlatSum(prices, t, d + HOUR, dur);
    }
  }

  lemma {:induction false} LeastWindow(prices: Book, dur: int, windows: set<Price>) returns (t: int)
    requires windows != {}
    ensures exists p :: p in windows && t == p.time
    ensures forall p :: p in windows ==> Beats(prices, dur, t, p.time)
    decreases |windows|
  {
    var p :| p in windows;
    t := p.time;
    var rest := windows - {p};
    if rest != {} {
      var v := LeastWindow(prices, dur, rest);
      if !Beats(prices, dur, t, v) {
        t := v;
      }
    }
  }

  // Whenever a window fits, one is chosen.
  lemma BestExists(prices: Book, start: int, dur: int, last: int, fits: int) returns (t: int)
    requires IsLast(prices, last) && Fits(prices, start, dur, last, fits)
    ensures BestWindow(prices, start, dur, t)
  {
    var windows := set u | u in prices.Keys && Fits(prices, start, dur, last, u) :: prices[u];
    assert prices[fits] in windows;
    t := LeastWindow(prices, dur, windows);
    assert forall u :: Fits(prices, start, dur, last, u) ==> prices[u] in windows;
    assert BestBefore(prices, start, dur, last, t);
  }

  // At equal prices a window with a gap is cheaper than any without, so one is chosen.
  lemma FlatChoosesGap(prices: Book, start: int, dur: int, last: int, gap: int) returns (t: int)
    requires IsLast(prices, last) && Fits(prices, start, dur, last, gap)
    requires !PricedThrough(prices.Keys, gap, 0, dur)
    ensures BestWindow(Flat(prices), start, dur, t) && !PricedThrough(prices.Keys, t, 0, dur)
  {
    var q := Flat(prices);
    assert IsLast(q, last) && Fits(q, start, dur, last, gap);
    t := BestExists(q, start, dur, last, gap);
    var l :| IsLast(q, l) && BestBefore(q, start, dur, l, t);
    LastIsUnique(q, last);
    assert Beats(q, dur, t, gap);
    FlatSum(prices, gap, 0, dur);
    FlatSum(prices, t, 0, dur);
  }

  // Given which hours are priced: the chosen window is priced throughout, whatever the
  // prices are, if and only if every window that fits is.
  lemma AlwaysPricedIff(prices: Book, start: int, dur: int, last: int)
    requires IsLast(prices, last)
    ensures (forall t :: Fits(prices, start, dur, last, t) ==> PricedThrough(prices.Keys, t, 0, dur))
      <==> (forall q: Book, t :: q.Keys == prices.Keys && BestWindow(q, start, dur, t)
              ==> PricedThrough(prices.Keys, t, 0, dur))
  {
    if forall t :: Fits(prices, start, dur, last, t) ==> PricedThrough(prices.Keys, t, 0, dur) {
      forall q: Book, t | q.Keys == prices.Keys && BestWindow(q, start, dur, t)
        ensures PricedThrough(prices.Keys, t, 0, dur)
      {
        ChosenFits(prices, start, dur, last, q, t);
      }
    } else {
      var gap :| Fits(prices, start, dur, last, gap) && !PricedThrough(prices.Keys, gap, 0, dur);
      var t := FlatChoosesGap(prices, start, dur, last, gap);
      assert Flat(prices).Keys == prices.Keys;
    }
  }

  lemma ChosenFits(prices: Book, start: int, dur: int, last: int, q: Book, t: int)
    requires IsLast(prices, last) && q.Keys == prices.Keys && BestWindow(q, start, dur, t)
    ensures Fits(prices, start, dur, last, t)
  {
    assert IsLast(q, last);
    LastIsUnique(q, last);
  }

  // Such a gap: the window around the missing hour wins.
  lemma GapWins()
    ensures var prices: Book := map[0 := Price(0, 2.0), HOUR := Price(HOUR, 2.0), 3 * HOUR := Price(3 * HOUR, 2.0)];
      BestWindow(prices, 0, 2 * HOUR, HOUR) && HOUR + HOUR !in prices
  {
    var prices: Book := map[0 := Price(0, 2.0), HOUR := Price(HOUR, 2.0), 3 * HOUR := Price(3 * HOUR, 2.0)];
    assert IsLast(prices, 3 * HOUR);
    forall t ensures Sum(prices, t, 0, 2 * HOUR) == TotalAt(prices, t) + TotalAt(prices, t + HOUR) {
      assert Sum(prices, t, 2 * HOUR, 2 * HOUR) == 0.0;
      assert Sum(prices, t, HOUR, 2 * HOUR) == TotalAt(prices, t + HOUR);
    }
    assert TotalAt(prices, 0) == TotalAt(prices, HOUR) == 2.0 && TotalAt(prices, 2 * HOUR) == 0.0;
    assert Fits(prices, 0, 2 * HOUR, 3 * HOUR, HOUR);
    forall u | Fits(prices, 0, 2 * HOUR, 3 * HOUR, u) ensures Beats(prices, 2 * HOUR, HOUR, u) {
      assert u == 0 || u == HOUR;
    }
    assert BestBefore(prices, 0, 2 * HOUR, 3 * HOUR, HOUR);
  }

  function Cleared(prices: Book, now: int): Book {
    map t | t in prices && t >= now - 24 * HOUR :: prices[t]
  }

  lemma {:induction false} ClearedSum(prices: Book, now: int, t: int, d: int, dur: int)
    requires t + d >= now - 24 * HOUR
    ensures Sum(Cleared(prices, now), t, d, dur) == Sum(prices, t, d, dur)
    decreases dur - d
  {
    if d < dur {
      ClearedSum(prices, now, t, d + HOUR, dur);
    }
  }

  // Dropping prices older than a day never changes the choice of a window that starts later.
  lemma ClearOldKeepsBest(prices: Book, now: int, start: int, dur: int, t: int)
    requires start >= now - 24 * HOUR
    ensures BestWindow(Cleared(prices, now), start, dur, t) <==> BestWindow(prices, start, dur, t)
  {
    var kept := Cleared(prices, now);
    forall u | u >= start ensures Sum(kept, u, 0, dur) == Sum(prices, u, 0, dur) {
      ClearedSum(prices, now, u, 0, dur);
    }
    if t in prices && start <= t {
      forall last ensures IsLast(kept, last) <==> IsLast(prices, last) {
      }
      forall last ensures BestBefore(kept, start, dur, last, t) <==> BestBefore(prices, start, dur, last, t) {
        assert forall u :: Fits(kept, start, dur, last, u) <==> Fits(prices, start, dur, last, u);
      }
    }
  }

  // ---- spaced picks ------------------------------------------------------------------

  lemma FoundIsUnique(prices: Book, from: int, to: int, t: int, u: int)
    requires Found(prices, from, to, t) && Found(prices, from, to, u)
    ensures t == u
  {
  }

  lemma {:induction false} PicksAreUnique(prices: Book, start: int, step: int, a: seq<int>, b: seq<int>)
    requires Picks(prices, start, step, a) && Picks(prices, start, step, b) && |a| == |b|
    ensures a == b
  {
    if a != [] {
      var n := |a| - 1;
      PicksPrefix(prices, start, step, a);
      PicksPrefix(prices, start, step, b);
      PicksAreUnique(prices, start, step, a[..n], b[..n]);
      assert n > 0 ==> a[n - 1] == a[..n][n - 1] == b[..n][n - 1] == b[n - 1];
      var from := From(start, step, a, n);
      assert PickAt(prices, start, step, a, n) && PickAt(prices, start, step, b, n);
      FoundIsUnique(prices, from, from + step, a[n], b[n]);
      assert a == a[..n] + [a[n]] && b == b[..n] + [b[n]];
    }
  }

  lemma PicksPrefix(prices: Book, start: int, step: int, a: seq<int>)
    requires a != [] && Picks(prices, start, step, a)
    ensures Picks(prices, start, step, a[..|a| - 1])
  {
    var b := a[..|a| - 1];
    forall i | 0 <= i < |b| ensures PickAt(prices, start, step, b, i) {
      assert From(start, step, b, i) == From(start, step, a, i) && PickAt(prices, start, step, a, i);
    }
  }

  ghost predicate Finds(prices: Book, start: int, step: int, picks: seq<int>, i: nat)
    requires i <= |picks|
  {
    var from := From(start, step, picks, i);
    !Empty(prices, from, from + step)
  }

  ghost predicate FindsBefore(prices: Book, start: int, step: int, picks: seq<int>, n: nat)
    requires n <= |picks|
  {
    forall i :: 0 <= i < n ==> Finds(prices, start, step, picks, i)
  }

  lemma PickFound(prices: Book, start: int, step: int, picks: seq<int>, i: nat)
    requires Picks(prices, start, step, picks) && i < |picks| && Finds(prices, start, step, picks, i)
    ensures picks[i] in prices
    ensures From(start, step, picks, i) <= picks[i] <= From(start, step, picks, i) + step
  {
    assert PickAt(prices, start, step, picks, i);
  }

  // While every search finds something, neighbouring picks are one to two steps apart
  // and pick i cannot drift further than that from the start.
  lemma {:induction false} PicksAreSpaced(prices: Book, start: int, step: int, picks: seq<int>, i: nat)
    requires Picks(prices, start, step, picks) && i < |picks| && FindsBefore(prices, start, step, picks, i + 1)
    ensures picks[i] in prices
    ensures i > 0 ==> picks[i - 1] + step <= picks[i] <= picks[i - 1] + 2 * step
    ensures start + i * step <= picks[i] <= start + (2 * i + 1) * step
  {
    PickFound(prices, start, step, picks, i);
    if i > 0 {
      PicksAreSpaced(prices, start, step, picks, i - 1);
      OneMore(start, step, i, picks[i - 1], picks[i]);
    }
  }

  lemma OneMore(start: int, step: int, i: nat, before: int, pick: int)
    requires i > 0 && start + (i - 1) * step <= before <= start + (2 * (i - 1) + 1) * step
    requires before + step <= pick <= before + 2 * step
    ensures start + i * step <= pick <= start + (2 * i + 1) * step
  {
    assert (i - 1) * step + step == i * step;
    assert (2 * (i - 1) + 1) * step + 2 * step == (2 * i + 1) * step;
  }

  // The year 1 is not priced, so a pick is a priced hour exactly when its search found one.
  lemma PricedIff(prices: Book, start: int, step: int, picks: seq<int>)
    requires Picks(prices, start, step, picks) && ZERO !in prices
    ensures (forall i :: 0 <= i < |picks| ==> picks[i] in prices) <==> FindsBefore(prices, start, step, picks, |picks|)
  {
    forall i | 0 <= i < |picks| ensures picks[i] in prices <==> Finds(prices, start, step, picks, i) {
      assert PickAt(prices, start, step, picks, i);
    }
  }

  // Any stretch of one step holds a price, from start for as long as the picks may reach.
  ghost predicate Covered(prices: Book, start: int, step: int, count: nat) {
    forall x :: start <= x <= start + (2 * count - 1) * step ==> HoldsPrice(prices, x, step)
  }

  ghost predicate HoldsPrice(prices: Book, x: int, step: int) {
    !Empty(prices, x, x + step)
  }

  // A guarantee from the prices alone: every search finds something.
  lemma {:induction false} CoveredPicks(prices: Book, start: int, step: int, picks: seq<int>, n: nat)
    requires Picks(prices, start, step, picks) && n <= |picks| && step >= 0 && Covered(prices, start, step, |picks|)
    ensures FindsBefore(prices, start, step, picks, n)
  {
    if n > 0 {
      var i := n - 1;
      CoveredPicks(prices, start, step, picks, i);
      if i > 0 {
        PicksAreSpaced(prices, start, step, picks, i - 1);
        StillCovered(start, step, i, |picks|, picks[i - 1]);
      } else {
        Grows(0, 2 * |picks| - 1, step);
      }
      assert HoldsPrice(prices, From(start, step, picks, i), step);
    }
  }

  lemma StillCovered(start: int, step: nat, i: nat, count: nat, before: int)
    requires 0 < i < count && start + (i - 1) * step <= before <= start + (2 * (i - 1) + 1) * step
    ensures start <= before + step <= start + (2 * count - 1) * step
  {
    OneMore(start, step, i, before, before + step);
    Grows(0, i, step);
    assert (2 * (i - 1) + 1) * step + step == 2 * i * step;
    Grows(2 * i, 2 * count - 1, step);
  }

  lemma Grows(a: int, b: int, step: nat)
    requires a <= b
    ensures a * step <= b * step
  {
  }
}
