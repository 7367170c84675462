// The theorems about a node and its server, over every interleaving: which states can only
// end with the two in agreement, and which steps keep a node in such states.
module NodeAgreement {
  import opened Devices
  import opened NodeSync
  import opened NodeSettle

  // ---- exactly when a device ends right ------------------------------------------------

  // Nobody changes a device any more, and what was on its way has arrived.
  ghost predicate Finishes<R>(s: System<R>, es: seq<Event<R>>)
    requires s.Sane()
  {
    && Possible(s, es) && Quiet(After(s, es))
    && forall i :: 0 <= i < |es| ==> Finishing(es[i])
  }

  ghost predicate EndsRight<R>(s: System<R>, es: seq<Event<R>>, id: string)
    requires s.Sane() && Finishes(s, es)
  {
    Lists(After(s, es), id) && Right(After(s, es), id)
  }

  lemma {:induction false} SettledEndsRight<R>(s: System<R>, es: seq<Event<R>>, id: string)
    requires s.Sane() && Lists(s, id) && Settled(s, id) && Finishes(s, es)
    ensures EndsRight(s, es, id)
    decreases |es|
  {
    if es == [] {
      QuietSettled(s, id);
    } else {
      FinishKeeps(s, es[0], id);
      SettledEndsRight(Happen(s, es[0]), es[1..], id);
    }
  }

  lemma {:induction false} UnsettledEndsWrong<R>(s: System<R>, id: string) returns (es: seq<Event<R>>)
    requires s.Sane() && Lists(s, id) && !Settled(s, id)
    ensures Finishes(s, es) && !EndsRight(s, es, id)
    ensures After(s, es).listed == s.listed && After(s, es).objects == s.objects
    decreases |At(s, 4)|, |At(s, 3)|, |At(s, 2)|, |At(s, 1)|, Rank(s.worker)
  {
    if Quiet(s) {
      es := [];
      QuietSettled(s, id);
    } else {
      var e := UnsettledStays(s, id);
      FinishKeeps(s, e, id);
      FinishShrinks(s, e);
      var rest := UnsettledEndsWrong(Happen(s, e), id);
      es := [e] + rest;
      assert es[0] == e && es[1..] == rest;
    }
  }

  // A device is settled if and only if, however the interleaving finishes, the server ends
  // up with it as it is.
  lemma SettledIff<R>(s: System<R>, id: string)
    requires s.Sane() && Lists(s, id)
    ensures Settled(s, id) <==> forall es :: Finishes(s, es) ==> EndsRight(s, es, id)
  {
    if Settled(s, id) {
      forall es | Finishes(s, es) ensures EndsRight(s, es, id) {
        SettledEndsRight(s, es, id);
      }
    } else {
      var es := UnsettledEndsWrong(s, id);
    }
  }

  // ---- which steps keep all devices settled ----------------------------------------------

  ghost predicate Tracked<R>(s: System<R>) {
    s.Sane() && forall id :: id in s.listed ==> Settled(s, id)
  }

  // The device a step may change, in what it holds or in which object is listed.
  predicate Changes<R>(e: Event<R>) {
    e.AddNew? || e.AddKnown? || e.MergeState? || e.WriteOnline? || e.SetDirect?
  }

  ghost function Changed<R>(s: System<R>, e: Event<R>): string
    requires s.Sane() && CanHappen(s, e) && Changes(e)
  {
    match e
    case AddNew(_, _, d) => d.id
    case AddKnown(_, r) => s.objects[r].id
    case MergeState(t) => s.objects[s.callers[t].ref].id
    case WriteOnline(t) => s.objects[s.callers[t].ref].id
    case SetDirect(t) => s.callers[t].id
  }

  // A change must not leave a request holding another copy of the device, and setting it
  // for a request must not leave one in a batch, unless the device is announced.
  ghost predicate Guarded<R>(s: System<R>, e: Event<R>)
    requires s.Sane() && CanHappen(s, e)
  {
    Changes(e) ==>
      var n, id := Happen(s, e), Changed(s, e);
      && Lists(n, id) && !Stale(n, id)
      && (e.SetDirect? ==> Announced(s, id) || !BatchStale(n, id))
  }

  // What a change leaves alone.
  lemma ChangeTurns<R>(s: System<R>, e: Event<R>)
    requires s.Sane() && CanHappen(s, e) && Changes(e)
    ensures var n, id := Happen(s, e), Changed(s, e);
      && n.worker == s.worker && n.server == s.server
      && e.t in s.callers && Stage(s.callers[e.t]) == 0
      && e.t in n.callers && n.callers == s.callers[e.t := n.callers[e.t]]
      && n.callers[e.t] == (if e.SetDirect? then Fetching(id) else Sending(id))
  {
  }

  lemma ChangeStores<R>(s: System<R>, e: Event<R>)
    requires s.Sane() && CanHappen(s, e) && Changes(e)
    ensures var n, id := Happen(s, e), Changed(s, e);
      && n.listed.Keys == s.listed.Keys + {id} && Lists(n, id)
      && forall x :: x in s.listed && x != id ==> n.listed[x] == s.listed[x]
  {
    var n, id := Happen(s, e), Changed(s, e);
    if e.AddNew? || e.AddKnown? {
      assert n.listed == s.listed[id := e.ref];
    } else {
      ChangeInPlace(s, e);
    }
  }

  lemma ChangeInPlace<R>(s: System<R>, e: Event<R>)
    requires s.Sane() && CanHappen(s, e) && Changes(e) && !e.AddNew? && !e.AddKnown?
    ensures Happen(s, e).listed == s.listed && Changed(s, e) in s.listed
  {
    assert s.Fits(s.callers[e.t]);
  }

  lemma ChangeSpares<R>(s: System<R>, e: Event<R>, r: R)
    requires s.Sane() && CanHappen(s, e) && Changes(e) && r in s.objects
    ensures var n := Happen(s, e);
      && r in n.objects && n.objects[r].id == s.objects[r].id
      && (s.objects[r].id != Changed(s, e) ==> n.objects[r] == s.objects[r])
  {
  }

  // What the callers hold of another device.
  lemma OthersHeld<R>(s: System<R>, e: Event<R>, x: string, u: nat)
    requires s.Sane() && CanHappen(s, e) && Changes(e) && x != Changed(s, e)
    requires Lists(s, x) && Lists(Happen(s, e), x) && u in s.callers
    ensures var n := Happen(s, e);
      && u in n.callers && n.Current(x) == s.Current(x)
      && Differs(n, n.callers[u], x) == Differs(s, s.callers[u], x)
      && Serves(n, n.callers[u], x) == Serves(s, s.callers[u], x)
      && (n.callers[u] == Sending(x) <==> s.callers[u] == Sending(x))
  {
    OtherStays(s, e, x);
    ChangeTurns(s, e);
    if s.callers[u].Marshalling? {
      assert s.Fits(s.callers[u]);
      ChangeSpares(s, e, s.callers[u].ref);
    }
  }

  lemma OtherStays<R>(s: System<R>, e: Event<R>, x: string)
    requires s.Sane() && CanHappen(s, e) && Changes(e) && x != Changed(s, e)
    requires Lists(s, x) && Lists(Happen(s, e), x)
    ensures Happen(s, e).Current(x) == s.Current(x)
  {
    ChangeStores(s, e);
    ChangeSpares(s, e, s.listed[x]);
  }

  lemma OthersSettled<R>(s: System<R>, e: Event<R>, x: string)
    requires s.Sane() && CanHappen(s, e) && Changes(e) && x != Changed(s, e)
    requires Lists(s, x) && Lists(Happen(s, e), x) && Settled(s, x)
    ensures Settled(Happen(s, e), x)
  {
    var n := Happen(s, e);
    ChangeTurns(s, e);
    forall u | u in s.callers
      ensures u in n.callers && n.Current(x) == s.Current(x)
      ensures Differs(n, n.callers[u], x) == Differs(s, s.callers[u], x)
      ensures Serves(n, n.callers[u], x) == Serves(s, s.callers[u], x)
      ensures n.callers[u] == Sending(x) <==> s.callers[u] == Sending(x)
    {
      OthersHeld(s, e, x, u);
    }
    assert n.callers.Keys == s.callers.Keys;
    OthersHeld(s, e, x, e.t);
    assert Stale(n, x) == Stale(s, x) && Served(n, x) == Served(s, x) && Announced(n, x) == Announced(s, x);
  }

  lemma ChangedSettled<R>(s: System<R>, e: Event<R>)
    requires s.Sane() && CanHappen(s, e) && Changes(e)
    ensures Lists(Happen(s, e), Changed(s, e))
    ensures Settled(Happen(s, e), Changed(s, e)) <==> Guarded(s, e)
  {
    var n, id := Happen(s, e), Changed(s, e);
    ChangeTurns(s, e);
    ChangeStores(s, e);
    if e.SetDirect? {
      assert Serves(n, n.callers[e.t], id);
      forall u | u in s.callers ensures s.callers[u] == Sending(id) <==> n.callers[u] == Sending(id) {
        assert u != e.t ==> n.callers[u] == s.callers[u];
      }
      assert Announced(n, id) == Announced(s, id);
    } else {
      assert n.callers[e.t] == Sending(id);
    }
  }

  // Comparing and declining change nothing that is on its way.
  lemma OtherwiseSettled<R>(s: System<R>, e: Event<R>, id: string)
    requires s.Sane() && CanHappen(s, e) && !Changes(e) && !Finishing(e) && Lists(s, id)
    ensures Happen(s, e).listed == s.listed && Lists(Happen(s, e), id)
    ensures Settled(s, id) ==> Settled(Happen(s, e), id)
  {
    var n := Happen(s, e);
    assert n.objects == s.objects && n.listed == s.listed && n.worker == s.worker && n.server == s.server;
    assert e.t in n.callers && n.callers == s.callers[e.t := n.callers[e.t]];
    OneTurns(s, n, e.t, id);
    assert !Serves(s, s.callers[e.t], id) && !Serves(n, n.callers[e.t], id);
    assert !Differs(s, s.callers[e.t], id) && !Differs(n, n.callers[e.t], id);
  }

  lemma ChangeIff<R>(s: System<R>, e: Event<R>)
    requires Tracked(s) && CanHappen(s, e) && Changes(e)
    ensures Tracked(Happen(s, e)) <==> Guarded(s, e)
  {
    ChangeStores(s, e);
    ChangedSettled(s, e);
    forall x | x in s.listed && x != Changed(s, e) ensures Settled(Happen(s, e), x) {
      OthersSettled(s, e, x);
    }
  }

  // From a state with all devices settled, a step keeps them so exactly when it is guarded.
  lemma StepIff<R>(s: System<R>, e: Event<R>)
    requires Tracked(s) && CanHappen(s, e)
    ensures Tracked(Happen(s, e)) <==> Guarded(s, e)
  {
    if Changes(e) {
      ChangeIff(s, e);
    } else {
      SameListed(s, e);
      forall x | x in s.listed ensures Lists(Happen(s, e), x) && Settled(Happen(s, e), x) {
        if Finishing(e) {
          FinishKeeps(s, e, x);
        } else {
          OtherwiseSettled(s, e, x);
        }
      }
    }
  }

  lemma SameListed<R>(s: System<R>, e: Event<R>)
    requires s.Sane() && CanHappen(s, e) && !Changes(e)
    ensures Happen(s, e).listed == s.listed
  {
  }

  // ---- whole runs ------------------------------------------------------------------------

  ghost predicate Careful<R>(s: System<R>, es: seq<Event<R>>)
    requires s.Sane() && Possible(s, es)
    decreases |es|
  {
    es != [] ==> Guarded(s, es[0]) && Careful(Happen(s, es[0]), es[1..])
  }

  ghost predicate TrackedThroughout<R>(s: System<R>, es: seq<Event<R>>)
    requires s.Sane() && Possible(s, es)
    decreases |es|
  {
    Tracked(s) && (es != [] ==> TrackedThroughout(Happen(s, es[0]), es[1..]))
  }

  // Every state of a run can only end in agreement if and only if every step is guarded.
  lemma {:induction false} CarefulIff<R>(s: System<R>, es: seq<Event<R>>)
    requires Tracked(s) && Possible(s, es)
    ensures TrackedThroughout(s, es) <==> Careful(s, es)
    ensures Careful(s, es) ==> Tracked(After(s, es))
    decreases |es|
  {
    if es != [] {
      StepIff(s, es[0]);
      if Guarded(s, es[0]) {
        CarefulIff(Happen(s, es[0]), es[1..]);
      }
    }
  }

  // No state-change request from the server.
  ghost predicate NoRequests<R>(s: System<R>, es: seq<Event<R>>) {
    && (forall t :: t in s.callers ==> !InRequest(s.callers[t]))
    && (forall i :: 0 <= i < |es| ==> !es[i].RequestState?)
  }

  predicate InRequest<R>(c: Caller<R>) {
    c.Deciding? || c.Fetching? || c.Marshalling? || c.Writing?
  }

  lemma {:induction false} NoRequestsCareful<R>(s: System<R>, es: seq<Event<R>>)
    requires s.Sane() && Possible(s, es) && NoRequests(s, es)
    ensures Careful(s, es)
    decreases |es|
  {
    if es != [] {
      var n := Happen(s, es[0]);
      StillNoRequest(s, es[0]);
      if Changes(es[0]) {
        ChangeTurns(s, es[0]);
        ChangeStores(s, es[0]);
      }
      assert forall i :: 0 <= i < |es[1..]| ==> es[1..][i] == es[i + 1];
      NoRequestsCareful(n, es[1..]);
    }
  }

  lemma StillNoRequest<R>(s: System<R>, e: Event<R>)
    requires s.Sane() && CanHappen(s, e) && !e.RequestState?
    requires forall t :: t in s.callers ==> !InRequest(s.callers[t])
    ensures forall t :: t in Happen(s, e).callers ==> !InRequest(Happen(s, e).callers[t])
  {
    if ByWorker(e) {
      StillNoRequestWork(s, e);
    }
  }

  lemma StillNoRequestWork<R>(s: System<R>, e: Event<R>)
    requires s.Sane() && CanHappen(s, e) && ByWorker(e)
    requires forall t :: t in s.callers ==> !InRequest(s.callers[t])
    ensures forall t :: t in Happen(s, e).callers ==> !InRequest(Happen(s, e).callers[t])
  {
  }

  lemma FreshTracked<R>(s: System<R>)
    requires Fresh(s)
    ensures Tracked(s)
  {
  }

  // Whatever the interleaving: in a run without state-change requests, and in any run
  // whose steps are guarded, when nothing is on its way the server has every device
  // exactly as it is.
  lemma QuietMeansAgreement<R>(s: System<R>, es: seq<Event<R>>)
    requires Fresh(s) && Possible(s, es) && (NoRequests(s, es) || Careful(s, es))
    ensures var n := After(s, es);
      && Tracked(n)
      && (Quiet(n) ==> forall id :: id in n.listed ==> id in n.server && n.server[id] == n.Current(id))
  {
    FreshTracked(s);
    if NoRequests(s, es) {
      NoRequestsCareful(s, es);
    }
    CarefulIff(s, es);
    var n := After(s, es);
    if Quiet(n) {
      forall id | id in n.listed ensures id in n.server && n.server[id] == n.Current(id) {
        QuietSettled(n, id);
      }
    }
  }
}
