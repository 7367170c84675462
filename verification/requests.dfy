// Pending certificate requests: a slice that RemoveRequest deletes from while it
// ranges over it (store/request.go). The range keeps the old length and reads the
// backing array that the deletion shifts underneath it.
module Requests {
  import opened Sequences

  // approved: the channel a waiting handler listens on, if any.
  datatype Request = Request(identity: string, connection: string, approved: Option<nat>)

  datatype Signal = Sent(channel: nat) | Closed(channel: nat)

  // ---- what should happen -----------------------------------------------------

  function Kept(rs: seq<Request>, c: string): seq<Request> {
    if rs == [] then []
    else if rs[0].connection == c then Kept(rs[1..], c)
    else [rs[0]] + Kept(rs[1..], c)
  }

  function SignalsOf(r: Request, approved: bool): seq<Signal> {
    match r.approved
    case None => []
    case Some(ch) => (if approved then [Sent(ch)] else []) + [Closed(ch)]
  }

  // Every handler waiting for the connection is released once, in order.
  function Released(rs: seq<Request>, c: string, approved: bool): seq<Signal> {
    if rs == [] then []
    else (if rs[0].connection == c then SignalsOf(rs[0], approved) else []) + Released(rs[1..], c, approved)
  }

  // ---- what the loop does -----------------------------------------------------

  // Deleting shifts the next request under the index that is about to move on, so it
  // is never looked at.
  function Sweep(rs: seq<Request>, c: string, p: nat): seq<Request>
    decreases |rs| - p
  {
    if p >= |rs| then []
    else if rs[p].connection != c then [rs[p]] + Sweep(rs, c, p + 1)
    else if p + 1 == |rs| then []
    else [rs[p + 1]] + Sweep(rs, c, p + 2)
  }

  function Swept(rs: seq<Request>, c: string, approved: bool, p: nat): seq<Signal>
    decreases |rs| - p
  {
    if p >= |rs| then []
    else if rs[p].connection != c then Swept(rs, c, approved, p + 1)
    else SignalsOf(rs[p], approved) + Swept(rs, c, approved, p + 2)
  }

  predicate Matches(rs: seq<Request>, c: string, j: int) {
    0 <= j < |rs| && rs[j].connection == c
  }

  // The stale copies of the last request behind the shortened slice match as well:
  // a channel is closed twice, or the slice is cut beyond its end.
  predicate Panics(rs: seq<Request>, c: string) {
    Matches(rs, c, |rs| - 1) && exists j :: 0 <= j < |rs| - 1 && Matches(rs, c, j)
  }

  predicate NoNeighbours(rs: seq<Request>, c: string, p: nat) {
    forall j :: p <= j < |rs| - 1 && Matches(rs, c, j) ==> !Matches(rs, c, j + 1)
  }

  // ---- when the two agree -------------------------------------------------------

  lemma {:induction false} SweepKeeps(rs: seq<Request>, c: string, p: nat)
    requires p <= |rs|
    ensures Sweep(rs, c, p) == Kept(rs[p..], c) <==> NoNeighbours(rs, c, p)
    decreases |rs| - p
  {
    if p < |rs| {
      KeptAt(rs, c, p);
      if rs[p].connection != c {
        SweepKeeps(rs, c, p + 1);
        SameTail(rs[p], Sweep(rs, c, p + 1), Kept(rs[p + 1..], c));
      } else if p + 1 < |rs| {
        KeptAt(rs, c, p + 1);
        SweepKeeps(rs, c, p + 2);
        if rs[p + 1].connection != c {
          SameTail(rs[p + 1], Sweep(rs, c, p + 2), Kept(rs[p + 2..], c));
        } else {
          assert Matches(rs, c, p) && Matches(rs, c, p + 1);
          KeptHasNone(rs[p..], c);
          assert Sweep(rs, c, p)[0] == rs[p + 1];
        }
      }
    }
  }

  lemma SameTail(x: Request, a: seq<Request>, b: seq<Request>)
    ensures [x] + a == [x] + b <==> a == b
  {
    assert ([x] + a)[1..] == a && ([x] + b)[1..] == b;
  }

  lemma KeptAt(rs: seq<Request>, c: string, p: nat)
    requires p < |rs|
    ensures Kept(rs[p..], c) ==
      if rs[p].connection == c then Kept(rs[p + 1..], c) else [rs[p]] + Kept(rs[p + 1..], c)
  {
    assert rs[p..][1..] == rs[p + 1..];
  }

  lemma {:induction false} KeptHasNone(rs: seq<Request>, c: string)
    ensures forall r :: r in Kept(rs, c) ==> r.connection != c
  {
    if rs != [] {
      KeptHasNone(rs[1..], c);
    }
  }

  lemma ReleasedAt(rs: seq<Request>, c: string, approved: bool, p: nat)
    requires p < |rs|
    ensures rs[p].connection != c ==> Released(rs[p..], c, approved) == Released(rs[p + 1..], c, approved)
    ensures rs[p].connection == c ==>
      Released(rs[p..], c, approved) == SignalsOf(rs[p], approved) + Released(rs[p + 1..], c, approved)
  {
    assert rs[p..][1..] == rs[p + 1..];
  }

  lemma {:induction false} SweptReleases(rs: seq<Request>, c: string, approved: bool, p: nat)
    requires p <= |rs| && NoNeighbours(rs, c, p)
    ensures Swept(rs, c, approved, p) == Released(rs[p..], c, approved)
    decreases |rs| - p
  {
    if p < |rs| {
      ReleasedAt(rs, c, approved, p);
      if rs[p].connection != c {
        SweptReleases(rs, c, approved, p + 1);
      } else if p + 1 < |rs| {
        assert Matches(rs, c, p) && !Matches(rs, c, p + 1);
        ReleasedAt(rs, c, approved, p + 1);
        SweptReleases(rs, c, approved, p + 2);
      } else {
        assert rs[p + 1..] == [];
      }
    }
  }

  // What releasing says: true to exactly the handlers of the connection, and only when it
  // was approved.
  lemma {:induction false} ReleasedTells(rs: seq<Request>, c: string, approved: bool, ch: nat)
    ensures Sent(ch) in Released(rs, c, approved) <==>
      approved && exists r :: r in rs && r.connection == c && r.approved == Some(ch)
    ensures Closed(ch) in Released(rs, c, approved) <==>
      exists r :: r in rs && r.connection == c && r.approved == Some(ch)
  {
    if rs != [] {
      ReleasedTells(rs[1..], c, approved, ch);
      assert rs == [rs[0]] + rs[1..];
    }
  }

  // In any list: nothing but the handlers of the connection, and true only on approval.
  lemma {:induction false} SweptTells(rs: seq<Request>, c: string, approved: bool, p: nat, g: Signal)
    requires g in Swept(rs, c, approved, p)
    ensures (g.Sent? ==> approved) && exists r :: r in rs && r.connection == c && r.approved == Some(g.channel)
    decreases |rs| - p
  {
    if rs[p].connection != c {
      SweptTells(rs, c, approved, p + 1, g);
    } else if g !in SignalsOf(rs[p], approved) {
      SweptTells(rs, c, approved, p + 2, g);
    }
  }

  // A channel is told before it is closed.
  ghost predicate ToldFirst(signals: seq<Signal>) {
    forall i, j | 0 <= i < |signals| && 0 <= j < |signals| && signals[i].Sent? && signals[j].Closed? ::
      signals[i].channel == signals[j].channel ==> i < j
  }

  // The handlers of the connection are told: true if it was approved, and then, or
  // otherwise at once, that the channel is closed. Nobody else is told anything.
  ghost predicate TellsRight(rs: seq<Request>, c: string, approved: bool, told: seq<Signal>) {
    && ToldFirst(told)
    && (forall ch: nat :: Sent(ch) in told <==>
          approved && exists r :: r in rs && r.connection == c && r.approved == Some(ch))
    && (forall ch: nat :: Closed(ch) in told <==>
          exists r :: r in rs && r.connection == c && r.approved == Some(ch))
  }

  lemma ReleasedTellsRight(rs: seq<Request>, c: string, approved: bool)
    requires OwnChannels(rs)
    ensures TellsRight(rs, c, approved, Released(rs, c, approved))
  {
    ReleasedToldFirst(rs, c, approved);
    forall ch: nat
      ensures Sent(ch) in Released(rs, c, approved) <==>
        approved && exists r :: r in rs && r.connection == c && r.approved == Some(ch)
      ensures Closed(ch) in Released(rs, c, approved) <==>
        exists r :: r in rs && r.connection == c && r.approved == Some(ch)
    {
      ReleasedTells(rs, c, approved, ch);
    }
  }

  lemma {:induction false} ReleasedToldFirst(rs: seq<Request>, c: string, approved: bool)
    requires OwnChannels(rs)
    ensures ToldFirst(Released(rs, c, approved))
  {
    if rs != [] {
      var t := rs[1..];
      forall i, j | 0 <= i < j < |t| ensures !SharedChannel(t[i], t[j]) {
        assert !SharedChannel(rs[i + 1], rs[j + 1]);
      }
      ReleasedToldFirst(t, c, approved);
      if rs[0].connection == c && rs[0].approved.Some? {
        var ch := rs[0].approved.value;
        NoneTold(t, c, approved, ch);
        FirstTold(SignalsOf(rs[0], approved), Released(t, c, approved), ch);
      }
    }
  }

  lemma NoneTold(rs: seq<Request>, c: string, approved: bool, ch: nat)
    requires forall r :: r in rs ==> r.approved != Some(ch)
    ensures forall g :: g in Released(rs, c, approved) ==> g.channel != ch
  {
    ReleasedTells(rs, c, approved, ch);
    forall g | g in Released(rs, c, approved) ensures g.channel != ch {
      assert g == Sent(g.channel) || g == Closed(g.channel);
    }
  }

  lemma FirstTold(told: seq<Signal>, rest: seq<Signal>, ch: nat)
    requires told == [Closed(ch)] || told == [Sent(ch), Closed(ch)]
    requires ToldFirst(rest) && forall g :: g in rest ==> g.channel != ch
    ensures ToldFirst(told + rest)
  {
    var all := told + rest;
    assert forall i :: |told| <= i < |all| ==> all[i] == rest[i - |told|] && all[i] in rest;
  }

  predicate SharedChannel(r: Request, q: Request) {
    r.approved.Some? && r.approved == q.approved
  }

  ghost predicate OwnChannels(rs: seq<Request>) {
    forall i, j :: 0 <= i < j < |rs| ==> !SharedChannel(rs[i], rs[j])
  }

  // ---- the store --------------------------------------------------------------

  class Store {
    // The slice store.Requests: the first len elements of its backing array.
    var backing: array<Request>
    var len: nat
    var signals: seq<Signal>

    ghost predicate Valid()
      reads this
    {
      len <= backing.Length
    }

    ghost function Requests(): seq<Request>
      requires Valid()
      reads this, backing
    {
      backing[..len]
    }

    // Handlers make one channel per request, and only removal closes it.
    ghost predicate Waiting()
      requires Valid()
      reads this, backing
    {
      var rs := backing[..len];
      && (forall i :: 0 <= i < |rs| ==> Open(rs[i], signals))
      && OwnChannels(rs)
    }

    constructor ()
      ensures Valid() && Requests() == [] && signals == [] && fresh(backing)
    {
      backing, len, signals := new Request[0], 0, [];
    }

    method AddRequest(r: Request)
      requires Valid()
      modifies this, backing
      ensures Valid() && (backing == old(backing) || fresh(backing))
      ensures Requests() == old(Requests()) + [r] && signals == old(signals)
    {
      if len == backing.Length {
        var bigger := new Request[2 * len + 1](
          i requires 0 <= i reads this, backing => if i < backing.Length then backing[i] else r);
        assert bigger[..len] == backing[..len];
        backing := bigger;
      }
      backing[len] := r;
      len := len + 1;
    }

    // append(rs[:i], rs[i+1:]...): everything behind i moves one down.
    method ShiftDown(i: nat)
      requires Valid() && i < len
      modifies backing
      ensures backing[..] == Shifted(old(backing[..]), i, len)
    {
      var k := i;
      while k + 1 < len
        invariant i <= k < len
        invariant forall x :: 0 <= x < backing.Length ==>
          backing[x] == if i <= x < k then old(backing[x + 1]) else old(backing[x])
      {
        backing[k] := backing[k + 1];
        k := k + 1;
      }
    }

    // r.Approved <- true and close(r.Approved); false when the channel is closed already.
    method Release(r: Request, approved: bool) returns (ok: bool)
      modifies this`signals
      ensures ok <==> Open(r, old(signals))
      ensures ok ==> signals == old(signals) + SignalsOf(r, approved)
      ensures ok && r.approved.Some? && approved ==>
        signals == old(signals) + [Sent(r.approved.value), Closed(r.approved.value)]
      ensures ok && r.approved.Some? && !approved ==> signals == old(signals) + [Closed(r.approved.value)]
      ensures r.approved.None? ==> signals == old(signals)
    {
      if r.approved.Some? {
        var ch := r.approved.value;
        if Closed(ch) in signals {
          return false;
        }
        if approved {
          signals := signals + [Sent(ch)];
        }
        signals := signals + [Closed(ch)];
        assert signals == old(signals) + SignalsOf(r, approved);
      }
      return true;
    }

    function Now(): Snapshot
      requires Valid()
      reads this, backing
    {
      Snapshot(backing[..], len, signals)
    }

    method RemoveRequest(c: string, approved: bool) returns (panicked: bool)
      requires Valid() && Waiting()
      modifies this, backing
      ensures Valid() && backing == old(backing)
      ensures panicked <==> Panics(old(Requests()), c)
      ensures !panicked ==> Requests() == Sweep(old(Requests()), c, 0)
      ensures !panicked ==> signals == old(signals) + Swept(old(Requests()), c, approved, 0)
      ensures Removable(old(Requests()), c) ==>
        old(signals) <= signals && TellsRight(old(Requests()), c, approved, signals[|old(signals)|..])
    {
      var n := len;
      ghost var start := Now();
      var i := 0;
      RangeSweeps(start, c, approved);
      SweptTellsRight(Requests(), c, approved, signals);
      while i < n
        invariant i <= n && len <= n && Valid() && backing == old(backing)
        invariant Range(Now(), c, approved, i, n) == Range(start, c, approved, 0, n)
      {
        var r := backing[i];
        if r.connection == c {
          var ok := Remove(i, approved);
          if !ok {
            return true;
          }
        }
        i := i + 1;
      }
      return false;
    }

    // What the range does with a match at i; false when it panics.
    method Remove(i: nat, approved: bool) returns (ok: bool)
      requires Valid() && i < backing.Length
      modifies this, backing
      ensures Valid() && backing == old(backing)
      ensures ok <==> Open(old(backing[i]), old(signals)) && i < old(len)
      ensures ok ==> Now() == Without(old(Now()), i, approved)
    {
      var open := Release(backing[i], approved);
      if !open || i + 1 > len {
        return false;
      }
      ShiftDown(i);
      len := len - 1;
      return true;
    }
  }

  // The store between two iterations of the range.
  datatype Snapshot = Snapshot(a: seq<Request>, len: nat, signals: seq<Signal>)

  predicate Open(r: Request, signals: seq<Signal>) {
    r.approved.Some? ==> Closed(r.approved.value) !in signals
  }

  // Iteration i of the range; None when it panics.
  function Step(s: Snapshot, c: string, approved: bool, i: nat): Option<Snapshot>
    requires s.len <= |s.a| && i < |s.a|
  {
    if s.a[i].connection != c then Some(s)
    else if !Open(s.a[i], s.signals) || i + 1 > s.len then None
    else Some(Without(s, i, approved))
  }

  function Range(s: Snapshot, c: string, approved: bool, i: nat, n: nat): Option<Snapshot>
    requires s.len <= |s.a| && n <= |s.a|
    decreases n - i
  {
    if i >= n then Some(s)
    else
      match Step(s, c, approved, i)
      case None => None
      case Some(t) => Range(t, c, approved, i + 1, n)
  }

  // The request at i removed and released.
  function Without(s: Snapshot, i: nat, approved: bool): Snapshot
    requires i < s.len <= |s.a|
  {
    Snapshot(Shifted(s.a, i, s.len), s.len - 1, s.signals + SignalsOf(s.a[i], approved))
  }

  // The outcome of the range over rs.
  ghost predicate Ends(end: Option<Snapshot>, rs: seq<Request>, c: string, approved: bool, before: seq<Signal>) {
    match end
    case None => Panics(rs, c)
    case Some(s) =>
      && !Panics(rs, c)
      && s.len <= |s.a|
      && s.a[..s.len] == Sweep(rs, c, 0)
      && s.signals == before + Swept(rs, c, approved, 0)
  }

  // Where the loop can be: index i after m deletions.
  ghost predicate Progress(rs: seq<Request>, c: string, i: nat, m: nat) {
    && (m == 0 ==> forall j :: 0 <= j < i ==> !Matches(rs, c, j))
    && (m > 0 && i < |rs| ==> exists j :: 0 <= j < |rs| - 1 && Matches(rs, c, j))
    && (Matches(rs, c, |rs| - 1) && m > 0 ==>
          i <= |rs| - m + 1 && (m == 1 && i == |rs| ==> forall j :: 0 <= j < |rs| - 1 ==> !Matches(rs, c, j)))
  }

  // The loop invariant, at index i with rs swept up to p: behind the index the requests
  // have moved down by the number of deletions, p - i, and behind the slice stand stale
  // copies of the last one.
  ghost predicate Placed(rs: seq<Request>, c: string, a: seq<Request>, i: nat, p: nat) {
    && i <= p <= i + |rs| && i <= |rs| <= |a|
    && Progress(rs, c, i, p - i)
    && Tail(rs, a, i, p - i)
  }

  ghost predicate Tail(rs: seq<Request>, a: seq<Request>, i: nat, m: nat) {
    forall k :: i <= k < |rs| ==> InPlace(rs, a, m, k)
  }

  predicate InPlace(rs: seq<Request>, a: seq<Request>, m: nat, k: nat) {
    k < |rs| && k < |a| && a[k] == rs[if k + m < |rs| then k + m else |rs| - 1]
  }

  // What lies before the index is swept.
  ghost predicate SweptSoFar(rs: seq<Request>, c: string, front: seq<Request>, p: nat) {
    front + Sweep(rs, c, p) == Sweep(rs, c, 0)
  }

  function Front(a: seq<Request>, len: nat, i: nat): seq<Request>
    requires len <= |a|
  {
    a[..if i < len then i else len]
  }

  // The signals are those of the swept part, and the channels behind it are open.
  ghost predicate Signalled(rs: seq<Request>, c: string, approved: bool, before: seq<Signal>, p: nat,
      signals: seq<Signal>) {
    && signals + Swept(rs, c, approved, p) == before + Swept(rs, c, approved, 0)
    && forall k :: p <= k < |rs| ==> Open(rs[k], signals)
  }

  ghost predicate Reached(rs: seq<Request>, c: string, approved: bool, before: seq<Signal>, s: Snapshot,
      i: nat, p: nat) {
    && Placed(rs, c, s.a, i, p) && s.len + p == |rs| + i
    && SweptSoFar(rs, c, Front(s.a, s.len, i), p)
    && Signalled(rs, c, approved, before, p, s.signals)
  }

  function Shifted(a: seq<Request>, i: nat, len: nat): seq<Request>
    requires i < len <= |a|
  {
    seq(|a|, x requires 0 <= x < |a| => if i <= x < len - 1 then a[x + 1] else a[x])
  }

  lemma Started(rs: seq<Request>, c: string, approved: bool, s: Snapshot)
    requires s.len <= |s.a| && s.a[..s.len] == rs
    requires forall k :: 0 <= k < |rs| ==> Open(rs[k], s.signals)
    ensures Reached(rs, c, approved, s.signals, s, 0, 0)
  {
    assert s.a[..0] + Sweep(rs, c, 0) == Sweep(rs, c, 0);
  }

  // Behind the index lies what the range has yet to see.
  lemma Ahead(rs: seq<Request>, c: string, a: seq<Request>, i: nat, p: nat)
    requires Placed(rs, c, a, i, p) && p < |rs|
    ensures a[i] == rs[p]
    ensures p + 1 < |rs| ==> a[i + 1] == rs[p + 1]
  {
    assert InPlace(rs, a, p - i, i) && (p + 1 < |rs| ==> InPlace(rs, a, p - i, i + 1));
  }

  // ---- a request that does not match is passed

  lemma PassedPlaces(rs: seq<Request>, c: string, a: seq<Request>, i: nat, p: nat)
    requires Placed(rs, c, a, i, p) && i < |rs| && a[i].connection != c
    ensures Placed(rs, c, a, i + 1, p + 1)
    ensures p < |rs| ==> rs[p].connection != c
  {
    assert InPlace(rs, a, p - i, i);
  }

  lemma PassedFront(rs: seq<Request>, c: string, a: seq<Request>, len: nat, i: nat, p: nat)
    requires Placed(rs, c, a, i, p) && len + p == |rs| + i && i < |rs| && a[i].connection != c
    requires SweptSoFar(rs, c, Front(a, len, i), p)
    ensures SweptSoFar(rs, c, Front(a, len, i + 1), p + 1)
  {
    if p < |rs| {
      Ahead(rs, c, a, i, p);
      Regroup(a[..i], [rs[p]], Sweep(rs, c, p + 1));
      assert a[..i + 1] == a[..i] + [rs[p]];
    }
  }

  lemma PassedSignals(rs: seq<Request>, c: string, approved: bool, before: seq<Signal>, p: nat, signals: seq<Signal>)
    requires Signalled(rs, c, approved, before, p, signals) && (p < |rs| ==> rs[p].connection != c)
    ensures Signalled(rs, c, approved, before, p + 1, signals)
  {
  }

  lemma Passed(rs: seq<Request>, c: string, approved: bool, before: seq<Signal>, s: Snapshot, i: nat, p: nat)
    requires Reached(rs, c, approved, before, s, i, p) && i < |rs| && s.a[i].connection != c
    ensures Reached(rs, c, approved, before, s, i + 1, p + 1)
  {
    PassedPlaces(rs, c, s.a, i, p);
    PassedFront(rs, c, s.a, s.len, i, p);
    PassedSignals(rs, c, approved, before, p, s.signals);
  }

  // ---- one that matches is removed

  // A stale match means the loop is about to panic; a fresh one has an open channel.
  lemma MatchRead(rs: seq<Request>, c: string, approved: bool, before: seq<Signal>, s: Snapshot, i: nat, p: nat)
    requires Reached(rs, c, approved, before, s, i, p) && i < |rs| && s.a[i].connection == c
    ensures i >= s.len ==> Panics(rs, c)
    ensures i < s.len ==> Open(s.a[i], s.signals)
  {
    assert InPlace(rs, s.a, p - i, i);
  }

  lemma RemovedPlaces(rs: seq<Request>, c: string, a: seq<Request>, len: nat, i: nat, p: nat)
    requires Placed(rs, c, a, i, p) && p < |rs| && len + p == |rs| + i && a[i].connection == c
    ensures Placed(rs, c, Shifted(a, i, len), i + 1, p + 2)
  {
    var b, m := Shifted(a, i, len), p - i + 1;
    assert InPlace(rs, a, p - i, i) && Matches(rs, c, p);
    forall k | i + 1 <= k < |rs| ensures InPlace(rs, b, m, k) {
      assert InPlace(rs, a, p - i, k) && (k + 1 < len ==> InPlace(rs, a, p - i, k + 1));
    }
  }

  lemma RemovedFront(rs: seq<Request>, c: string, a: seq<Request>, len: nat, i: nat, p: nat)
    requires Placed(rs, c, a, i, p) && p < |rs| && len + p == |rs| + i && a[i].connection == c
    requires SweptSoFar(rs, c, Front(a, len, i), p)
    ensures SweptSoFar(rs, c, Front(Shifted(a, i, len), len - 1, i + 1), p + 2)
  {
    Ahead(rs, c, a, i, p);
    if p + 1 < |rs| {
      Regroup(a[..i], [rs[p + 1]], Sweep(rs, c, p + 2));
    }
    assert Front(Shifted(a, i, len), len - 1, i + 1) == if p + 1 < |rs| then a[..i] + [rs[p + 1]] else a[..i];
  }

  lemma RemovedSignals(rs: seq<Request>, c: string, approved: bool, before: seq<Signal>, p: nat, signals: seq<Signal>)
    requires Signalled(rs, c, approved, before, p, signals) && p < |rs| && rs[p].connection == c
    requires OwnChannels(rs)
    ensures Signalled(rs, c, approved, before, p + 2, signals + SignalsOf(rs[p], approved))
  {
    var s := SignalsOf(rs[p], approved);
    var after := signals + s;
    Regroup(signals, s, Swept(rs, c, approved, p + 2));
    forall k | p + 2 <= k < |rs| ensures Open(rs[k], after) {
      assert !SharedChannel(rs[p], rs[k]) && Open(rs[k], signals);
    }
  }

  lemma Removed(rs: seq<Request>, c: string, approved: bool, before: seq<Signal>, s: Snapshot, i: nat, p: nat)
    requires OwnChannels(rs) && Reached(rs, c, approved, before, s, i, p)
    requires i < s.len && s.a[i].connection == c
    ensures Reached(rs, c, approved, before, Without(s, i, approved), i + 1, p + 2)
  {
    Ahead(rs, c, s.a, i, p);
    RemovedPlaces(rs, c, s.a, s.len, i, p);
    RemovedFront(rs, c, s.a, s.len, i, p);
    RemovedSignals(rs, c, approved, before, p, s.signals);
  }

  // ---- and so on to the end

  lemma Finished(rs: seq<Request>, c: string, approved: bool, before: seq<Signal>, s: Snapshot, p: nat)
    requires Reached(rs, c, approved, before, s, |rs|, p)
    ensures Ends(Some(s), rs, c, approved, before)
  {
    assert Front(s.a, s.len, |rs|) + [] == s.a[..s.len] && s.signals + [] == s.signals;
  }

  // The rest of the range from a reached state.
  lemma {:induction false} RangeFrom(rs: seq<Request>, c: string, approved: bool, before: seq<Signal>,
      s: Snapshot, i: nat, p: nat)
    requires OwnChannels(rs) && Reached(rs, c, approved, before, s, i, p)
    ensures Ends(Range(s, c, approved, i, |rs|), rs, c, approved, before)
    decreases |rs| - i
  {
    if i == |rs| {
      Finished(rs, c, approved, before, s, p);
    } else if s.a[i].connection != c {
      Passed(rs, c, approved, before, s, i, p);
      RangeFrom(rs, c, approved, before, s, i + 1, p + 1);
    } else {
      MatchRead(rs, c, approved, before, s, i, p);
      if i < s.len {
        Removed(rs, c, approved, before, s, i, p);
        RangeFrom(rs, c, approved, before, Without(s, i, approved), i + 1, p + 2);
      }
    }
  }

  lemma RangeSweeps(s: Snapshot, c: string, approved: bool)
    requires s.len <= |s.a|
    requires var rs := s.a[..s.len]; OwnChannels(rs) && forall i :: 0 <= i < |rs| ==> Open(rs[i], s.signals)
    ensures Ends(Range(s, c, approved, 0, s.len), s.a[..s.len], c, approved, s.signals)
  {
    var rs := s.a[..s.len];
    Started(rs, c, approved, s);
    RangeFrom(rs, c, approved, s.signals, s, 0, 0);
  }

  // ---- exactly when removing works ----------------------------------------------

  // No two neighbouring requests are of the connection, and the last one is only if it
  // is the only one.
  predicate Removable(rs: seq<Request>, c: string) {
    NoNeighbours(rs, c, 0) && !Panics(rs, c)
  }

  // The loop removes exactly the connection's requests, keeping the others in order,
  // if and only if the list is removable; then it also releases exactly their handlers.
  lemma RemovesExactly(rs: seq<Request>, c: string, approved: bool)
    ensures !Panics(rs, c) && Sweep(rs, c, 0) == Kept(rs, c) <==> Removable(rs, c)
    ensures Removable(rs, c) ==> Swept(rs, c, approved, 0) == Released(rs, c, approved)
  {
    assert rs[0..] == rs;
    SweepKeeps(rs, c, 0);
    if Removable(rs, c) {
      SweptReleases(rs, c, approved, 0);
    }
  }

  lemma SweptTellsRight(rs: seq<Request>, c: string, approved: bool, before: seq<Signal>)
    requires OwnChannels(rs)
    ensures Removable(rs, c) ==>
      TellsRight(rs, c, approved, (before + Swept(rs, c, approved, 0))[|before|..])
  {
    RemovesExactly(rs, c, approved);
    ReleasedTellsRight(rs, c, approved);
    var told := Swept(rs, c, approved, 0);
    assert (before + told)[|before|..] == told;
  }

  // A list with one request per connection is removable.
  lemma OnePerConnection(rs: seq<Request>, c: string)
    requires forall i, j :: 0 <= i < j < |rs| ==> rs[i].connection != rs[j].connection
    ensures Removable(rs, c)
  {
  }
}
