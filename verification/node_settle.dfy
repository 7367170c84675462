// When the server ends up with every device as it is (pkg/node/node.go): exactly which
// states can only end right once nobody changes a device any more, and which steps keep
// a node in such states.
module NodeSettle {
  import opened Devices
  import opened NodeSync

  // ---- what is on its way for a device -----------------------------------------------

  ghost predicate Lists<R>(s: System<R>, id: string) {
    id in s.listed && s.listed[id] in s.objects
  }

  // Some caller is about to hand the id over, or the worker still has to copy it.
  ghost predicate Announced<R>(s: System<R>, id: string) {
    (exists t :: t in s.callers && s.callers[t] == Sending(id)) || id in Queue(s.worker)
  }

  // A request is going to write the device ...
  ghost predicate Serves<R>(s: System<R>, c: Caller<R>, id: string) {
    match c
    case Fetching(i) => i == id
    case Marshalling(r) => r in s.objects && s.objects[r].id == id
    case Writing(d) => d.id == id
    case _ => false
  }

  ghost predicate Served<R>(s: System<R>, id: string) {
    exists t :: t in s.callers && Serves(s, s.callers[t], id)
  }

  // ... and already holds what differs from it.
  ghost predicate Differs<R>(s: System<R>, c: Caller<R>, id: string)
    requires Lists(s, id)
  {
    match c
    case Marshalling(r) => r in s.objects && s.objects[r].id == id && s.objects[r] != s.Current(id)
    case Writing(d) => d.id == id && d != s.Current(id)
    case _ => false
  }

  ghost predicate Stale<R>(s: System<R>, id: string)
    requires Lists(s, id)
  {
    exists t :: t in s.callers && Differs(s, s.callers[t], id)
  }

  // The batch being built holds a copy that differs.
  ghost predicate BatchStale<R>(s: System<R>, id: string)
    requires Lists(s, id)
  {
    s.worker.Copying? && id in s.worker.devs && s.worker.devs[id] != s.Current(id)
  }

  // What the server will have once the batch being built is written.
  function Outlook<R>(s: System<R>): map<string, Dev> {
    if s.worker.Copying? then s.server + s.worker.devs else s.server
  }

  ghost predicate Agrees<R>(s: System<R>, id: string)
    requires Lists(s, id)
  {
    id in Outlook(s) && Outlook(s)[id] == s.Current(id)
  }

  // No request holds another copy, and the device is announced, or, when the batch holds
  // no other copy either, about to be written or right already.
  ghost predicate Settled<R>(s: System<R>, id: string)
    requires Lists(s, id)
  {
    && !Stale(s, id)
    && (Announced(s, id) || (!BatchStale(s, id) && (Served(s, id) || Agrees(s, id))))
  }

  // ---- finishing ---------------------------------------------------------------------

  // Steps that change no device: what is on its way goes its way.
  predicate Finishing<R>(e: Event<R>) {
    ByWorker(e) || e.GetDirect? || e.MarshalDirect? || e.WriteDirect?
  }

  // How far a caller still has to go: 4 before the rendezvous, 3 to 1 in a request.
  function Stage<R>(c: Caller<R>): nat {
    match c
    case Sending(_) => 4
    case Fetching(_) => 3
    case Marshalling(_) => 2
    case Writing(_) => 1
    case _ => 0
  }

  // Nothing is on its way.
  ghost predicate Quiet<R>(s: System<R>) {
    s.worker == Idle && forall t :: t in s.callers ==> Stage(s.callers[t]) == 0
  }

  ghost predicate Right<R>(s: System<R>, id: string)
    requires Lists(s, id)
  {
    id in s.server && s.server[id] == s.Current(id)
  }

  lemma QuietSettled<R>(s: System<R>, id: string)
    requires Lists(s, id) && Quiet(s)
    ensures Settled(s, id) <==> Right(s, id)
  {
  }

  // The next step of a caller that has one while the worker takes ids.
  function Next<R>(c: Caller<R>, t: nat): Event<R>
    requires Stage(c) > 0
  {
    match c
    case Sending(_) => Rendezvous(t)
    case Fetching(_) => GetDirect(t)
    case Marshalling(_) => MarshalDirect(t)
    case Writing(_) => WriteDirect(t)
  }

  function NextWork<R>(s: System<R>): Event<R>
    requires s.worker != Idle
  {
    match s.worker
    case Collecting(_) => EndCollect
    case Copying(rest, _) => if rest != [] then CopyNext else WriteBatch
  }

  lemma NextEffect<R>(s: System<R>, u: nat)
    requires s.Sane() && u in s.callers && Stage(s.callers[u]) > 0
    requires s.callers[u].Sending? ==> !s.worker.Copying?
    ensures CanHappen(s, Next(s.callers[u], u)) && Finishing(Next(s.callers[u], u))
    ensures var n := Happen(s, Next(s.callers[u], u));
      && n.objects == s.objects && n.listed == s.listed
      && u in n.callers && n.callers == s.callers[u := n.callers[u]]
      && Stage(n.callers[u]) < Stage(s.callers[u]) && !n.callers[u].Sending?
      && (!s.callers[u].Sending? ==> n.worker == s.worker)
  {
  }

  lemma WorkEffect<R>(s: System<R>)
    requires s.Sane() && s.worker != Idle
    ensures CanHappen(s, NextWork(s)) && Finishing(NextWork(s))
    ensures var n := Happen(s, NextWork(s));
      && n.objects == s.objects && n.listed == s.listed && n.callers == s.callers
      && Rank(n.worker) < Rank(s.worker)
      && (forall x :: x in Queue(n.worker) ==> x in Queue(s.worker))
  {
  }

  lemma FinishingIsNext<R>(s: System<R>, e: Event<R>)
    requires s.Sane() && CanHappen(s, e) && Finishing(e)
    ensures e.EndCollect? || e.CopyNext? || e.WriteBatch? ==> s.worker != Idle && e == NextWork(s)
    ensures ByRequest(e) || e.Rendezvous? ==>
      && e.t in s.callers && Stage(s.callers[e.t]) > 0 && e == Next(s.callers[e.t], e.t)
      && (s.callers[e.t].Sending? ==> !s.worker.Copying?)
  {
  }

  // Finishing comes to an end: every step makes this smaller.
  function Rank(w: Worker): nat {
    match w
    case Idle => 0
    case Collecting(que) => 2 + |que|
    case Copying(rest, _) => 1 + |rest|
  }

  function At<R>(s: System<R>, k: nat): set<nat> {
    set t | t in s.callers && Stage(s.callers[t]) == k
  }

  ghost predicate Smaller<R>(n: System<R>, s: System<R>) {
    || |At(n, 4)| < |At(s, 4)|
    || (|At(n, 4)| == |At(s, 4)| && |At(n, 3)| < |At(s, 3)|)
    || (|At(n, 4)| == |At(s, 4)| && |At(n, 3)| == |At(s, 3)| && |At(n, 2)| < |At(s, 2)|)
    || (|At(n, 4)| == |At(s, 4)| && |At(n, 3)| == |At(s, 3)| && |At(n, 2)| == |At(s, 2)|
        && |At(n, 1)| < |At(s, 1)|)
    || (|At(n, 4)| == |At(s, 4)| && |At(n, 3)| == |At(s, 3)| && |At(n, 2)| == |At(s, 2)|
        && |At(n, 1)| == |At(s, 1)| && Rank(n.worker) < Rank(s.worker))
  }

  lemma StageLeft<R>(s: System<R>, n: System<R>, u: nat, k: nat)
    requires u in s.callers && u in n.callers && n.callers == s.callers[u := n.callers[u]]
    requires Stage(n.callers[u]) < Stage(s.callers[u]) <= k
    ensures |At(n, k)| <= |At(s, k)| && (k == Stage(s.callers[u]) ==> |At(n, k)| < |At(s, k)|)
    ensures k > Stage(s.callers[u]) ==> |At(n, k)| == |At(s, k)|
  {
    if k == Stage(s.callers[u]) {
      assert At(n, k) == At(s, k) - {u};
    } else {
      assert At(n, k) == At(s, k);
    }
  }

  lemma FinishShrinks<R>(s: System<R>, e: Event<R>)
    requires s.Sane() && CanHappen(s, e) && Finishing(e)
    ensures Smaller(Happen(s, e), s)
  {
    var n := Happen(s, e);
    FinishingIsNext(s, e);
    if e.EndCollect? || e.CopyNext? || e.WriteBatch? {
      WorkEffect(s);
      assert forall k: nat :: At(n, k) == At(s, k);
    } else {
      NextEffect(s, e.t);
      forall k: nat | Stage(s.callers[e.t]) <= k
        ensures |At(n, k)| <= |At(s, k)| && (k == Stage(s.callers[e.t]) ==> |At(n, k)| < |At(s, k)|)
        ensures k > Stage(s.callers[e.t]) ==> |At(n, k)| == |At(s, k)|
      {
        StageLeft(s, n, e.t, k);
      }
    }
  }

  // ---- finishing steps keep a device settled -------------------------------------------

  lemma FinishRendezvous<R>(s: System<R>, t: nat, id: string)
    requires s.Sane() && Lists(s, id) && CanHappen(s, Rendezvous(t)) && Settled(s, id)
    ensures Settled(Happen(s, Rendezvous(t)), id)
  {
    var n := Happen(s, Rendezvous(t));
    var sent := s.callers[t].id;
    assert Queue(n.worker)[|Queue(s.worker)|] == sent;
    assert forall u :: u in n.callers && u != t ==> n.callers[u] == s.callers[u];
    if Announced(s, id) {
      if exists u :: u in s.callers && u != t && s.callers[u] == Sending(id) {
        var u :| u in s.callers && u != t && s.callers[u] == Sending(id);
        assert n.callers[u] == Sending(id);
      }
    } else if Served(s, id) {
      var u :| u in s.callers && Serves(s, s.callers[u], id);
      assert Serves(n, n.callers[u], id);
    }
  }

  lemma FinishWorker<R>(s: System<R>, e: Event<R>, id: string)
    requires s.Sane() && Lists(s, id) && CanHappen(s, e) && (e.EndCollect? || e.CopyNext? || e.WriteBatch?)
    requires Settled(s, id)
    ensures Settled(Happen(s, e), id)
  {
    var n := Happen(s, e);
    assert n.callers == s.callers && n.objects == s.objects && n.listed == s.listed;
    SameRequests(s, n, id);
    if e.CopyNext? {
      FinishCopy(s, id);
    } else {
      SameOutlook(s, e);
    }
  }

  lemma SameOutlook<R>(s: System<R>, e: Event<R>)
    requires s.Sane() && CanHappen(s, e) && (e.EndCollect? || e.WriteBatch?)
    ensures var n := Happen(s, e);
      && Outlook(n) == Outlook(s) && Queue(n.worker) == Queue(s.worker)
      && (n.worker.Copying? ==> n.worker.devs == map[])
  {
  }

  lemma FinishCopy<R>(s: System<R>, id: string)
    requires s.Sane() && Lists(s, id) && CanHappen(s, CopyNext)
    ensures var n := Happen(s, CopyNext);
      && (id == s.worker.rest[0] ==> !BatchStale(n, id) && Agrees(n, id))
      && (id != s.worker.rest[0] ==>
            BatchStale(n, id) == BatchStale(s, id) && Agrees(n, id) == Agrees(s, id)
            && (id in Queue(n.worker) <==> id in Queue(s.worker)))
  {
    assert s.worker.rest == [s.worker.rest[0]] + s.worker.rest[1..];
  }

  // What the callers hold depends on nothing else.
  lemma SameRequests<R>(s: System<R>, n: System<R>, id: string)
    requires Lists(s, id) && n.callers == s.callers && n.objects == s.objects && n.listed == s.listed
    ensures Stale(n, id) == Stale(s, id) && Served(n, id) == Served(s, id)
  {
    assert forall t :: t in s.callers ==>
      Differs(n, s.callers[t], id) == Differs(s, s.callers[t], id)
      && Serves(n, s.callers[t], id) == Serves(s, s.callers[t], id);
  }

  // One caller goes on, from one stage of a request to the next.
  lemma OneTurns<R>(s: System<R>, n: System<R>, t: nat, id: string)
    requires Lists(s, id) && t in s.callers && n.objects == s.objects && n.listed == s.listed
    requires t in n.callers && n.callers == s.callers[t := n.callers[t]]
    requires n.worker == s.worker && !s.callers[t].Sending? && !n.callers[t].Sending?
    ensures Announced(n, id) == Announced(s, id)
    ensures Differs(n, n.callers[t], id) == Differs(s, s.callers[t], id) ==> Stale(n, id) == Stale(s, id)
    ensures Serves(n, n.callers[t], id) == Serves(s, s.callers[t], id) ==> Served(n, id) == Served(s, id)
  {
    forall u | u in s.callers
      ensures u in n.callers && (u != t ==> n.callers[u] == s.callers[u])
      ensures s.callers[u] == Sending(id) <==> n.callers[u] == Sending(id)
    {
    }
    assert forall u :: u in s.callers && u != t ==>
      Differs(n, n.callers[u], id) == Differs(s, s.callers[u], id)
      && Serves(n, n.callers[u], id) == Serves(s, s.callers[u], id);
  }

  lemma FinishRequest<R>(s: System<R>, e: Event<R>, id: string)
    requires s.Sane() && Lists(s, id) && CanHappen(s, e) && (e.GetDirect? || e.MarshalDirect? || e.WriteDirect?)
    requires Settled(s, id)
    ensures Settled(Happen(s, e), id)
  {
    var n := Happen(s, e);
    OneTurns(s, n, e.t, id);
    if e.WriteDirect? {
      WrittenRight(s, e.t, id);
    } else {
      assert Differs(n, n.callers[e.t], id) == Differs(s, s.callers[e.t], id);
    }
  }

  lemma WrittenRight<R>(s: System<R>, t: nat, id: string)
    requires s.Sane() && Lists(s, id) && CanHappen(s, WriteDirect(t)) && Settled(s, id)
    ensures Settled(Happen(s, WriteDirect(t)), id)
  {
    var n := Happen(s, WriteDirect(t));
    OneTurns(s, n, t, id);
    assert !Differs(s, s.callers[t], id);
    if s.callers[t].copy.id == id {
      assert !BatchStale(s, id) ==> Agrees(n, id);
    } else {
      assert Agrees(s, id) ==> Agrees(n, id);
    }
  }

  lemma FinishKeeps<R>(s: System<R>, e: Event<R>, id: string)
    requires s.Sane() && Lists(s, id) && CanHappen(s, e) && Finishing(e)
    ensures Happen(s, e).objects == s.objects && Happen(s, e).listed == s.listed
    ensures Settled(s, id) ==> Settled(Happen(s, e), id)
  {
    FinishingIsNext(s, e);
    if s.worker != Idle {
      WorkEffect(s);
    }
    if ByRequest(e) || e.Rendezvous? {
      NextEffect(s, e.t);
    }
    if Settled(s, id) {
      if e.Rendezvous? {
        FinishRendezvous(s, e.t, id);
      } else if ByWorker(e) {
        FinishWorker(s, e, id);
      } else {
        FinishRequest(s, e, id);
      }
    }
  }

  // ---- an unsettled device can stay so to the end ---------------------------------------

  // A request holds another copy: everybody else goes first, and it writes last.
  lemma StaleStays<R>(s: System<R>, id: string, t: nat) returns (e: Event<R>)
    requires s.Sane() && Lists(s, id) && t in s.callers && Differs(s, s.callers[t], id)
    ensures CanHappen(s, e) && Finishing(e) && !Settled(Happen(s, e), id)
  {
    if s.worker != Idle {
      e := NextWork(s);
      WorkEffect(s);
      assert Differs(Happen(s, e), Happen(s, e).callers[t], id);
    } else if exists u :: u in s.callers && u != t && Stage(s.callers[u]) > 0 {
      var u :| u in s.callers && u != t && Stage(s.callers[u]) > 0;
      e := Next(s.callers[u], u);
      NextEffect(s, u);
      assert Differs(Happen(s, e), Happen(s, e).callers[t], id);
    } else {
      e := Next(s.callers[t], t);
      LastWriterWrong(s, id, t);
    }
  }

  lemma LastWriterWrong<R>(s: System<R>, id: string, t: nat)
    requires s.Sane() && Lists(s, id) && t in s.callers && Differs(s, s.callers[t], id) && s.worker == Idle
    requires forall u :: u in s.callers && u != t ==> Stage(s.callers[u]) == 0
    ensures !Settled(Happen(s, Next(s.callers[t], t)), id)
  {
    var n := Happen(s, Next(s.callers[t], t));
    NextEffect(s, t);
    if s.callers[t].Marshalling? {
      assert Differs(n, n.callers[t], id);
    } else {
      assert forall u :: u in n.callers ==> Stage(n.callers[u]) == 0;
      QuietSettled(n, id);
    }
  }

  // The batch holds another copy and nobody announces the device: the requests go first.
  lemma BatchStays<R>(s: System<R>, id: string) returns (e: Event<R>)
    requires s.Sane() && Lists(s, id) && BatchStale(s, id) && !Announced(s, id)
    ensures CanHappen(s, e) && Finishing(e) && !Settled(Happen(s, e), id)
  {
    if exists u :: u in s.callers && 0 < Stage(s.callers[u]) < 4 {
      var u :| u in s.callers && 0 < Stage(s.callers[u]) < 4;
      e := Next(s.callers[u], u);
      NextEffect(s, u);
      OneTurns(s, Happen(s, e), u, id);
    } else {
      e := NextWork(s);
      var n := Happen(s, e);
      WorkEffect(s);
      if e.CopyNext? {
        assert s.worker.rest[0] != id;
      } else {
        assert forall u :: u in n.callers ==> !Serves(n, n.callers[u], id);
      }
    }
  }

  // Nobody is going to write the device at all.
  lemma ForgottenStays<R>(s: System<R>, id: string) returns (e: Event<R>)
    requires s.Sane() && Lists(s, id) && !Quiet(s)
    requires !Announced(s, id) && !Served(s, id) && !Agrees(s, id) && !BatchStale(s, id)
    ensures CanHappen(s, e) && Finishing(e) && !Settled(Happen(s, e), id)
  {
    if s.worker != Idle {
      e := NextWork(s);
      var n := Happen(s, e);
      SameRequests(s, n, id);
      if e.CopyNext? {
        assert s.worker.rest[0] != id;
        assert forall x :: x in Queue(n.worker) ==> x in Queue(s.worker);
      } else {
        assert Outlook(n) == Outlook(s);
      }
    } else {
      var u :| u in s.callers && Stage(s.callers[u]) > 0;
      e := Next(s.callers[u], u);
      ForgottenTurn(s, id, u);
    }
  }

  lemma ForgottenTurn<R>(s: System<R>, id: string, u: nat)
    requires s.Sane() && Lists(s, id) && s.worker == Idle && u in s.callers && Stage(s.callers[u]) > 0
    requires !Announced(s, id) && !Served(s, id) && !Agrees(s, id)
    ensures CanHappen(s, Next(s.callers[u], u)) && !Settled(Happen(s, Next(s.callers[u], u)), id)
  {
    var e := Next(s.callers[u], u);
    var n := Happen(s, e);
    assert s.callers[u] != Sending(id) && !Serves(s, s.callers[u], id);
    forall v | v in n.callers
      ensures n.callers[v] != Sending(id) && !Serves(n, n.callers[v], id)
    {
      assert v != u ==> n.callers[v] == s.callers[v];
    }
    assert n.worker.Collecting? ==> n.worker.que == [s.callers[u].id];
  }

  lemma UnsettledStays<R>(s: System<R>, id: string) returns (e: Event<R>)
    requires s.Sane() && Lists(s, id) && !Settled(s, id) && !Quiet(s)
    ensures CanHappen(s, e) && Finishing(e) && !Settled(Happen(s, e), id)
  {
    if Stale(s, id) {
      var t :| t in s.callers && Differs(s, s.callers[t], id);
      e := StaleStays(s, id, t);
    } else if BatchStale(s, id) {
      e := BatchStays(s, id);
    } else {
      e := ForgottenStays(s, id);
    }
  }
}
