// Whole runs of the request store: signing requests add, each with a channel of its own
// (ca/ca.go), approvals and disconnects remove by connection. A connection may have
// several requests pending, because every signing request gets its own goroutine.
module RequestRuns {
  import opened Sequences
  import opened Requests

  datatype Call = Add(request: Request) | Remove(connection: string, approved: bool)

  // What a caller sees: the pending requests, and what the handlers have been told.
  datatype Pending = Pending(requests: seq<Request>, signals: seq<Signal>)

  function Do(s: Pending, call: Call): Pending {
    match call
    case Add(r) => Pending(s.requests + [r], s.signals)
    case Remove(c, approved) => Pending(Kept(s.requests, c), s.signals + Released(s.requests, c, approved))
  }

  function DoAll(s: Pending, calls: seq<Call>): Pending
    decreases |calls|
  {
    if calls == [] then s else DoAll(Do(s, calls[0]), calls[1..])
  }

  // Every request has a channel of its own that is still open.
  ghost predicate Settled(s: Pending) {
    OwnChannels(s.requests) && forall r :: r in s.requests ==> Open(r, s.signals)
  }

  // The channel of a new request is new; a removal meets a removable list.
  ghost predicate Allowed(s: Pending, call: Call) {
    match call
    case Add(r) => Open(r, s.signals) && forall q :: q in s.requests ==> !SharedChannel(q, r)
    case Remove(c, _) => Removable(s.requests, c)
  }

  ghost predicate Orderly(s: Pending, calls: seq<Call>)
    decreases |calls|
  {
    calls != [] ==> Allowed(s, calls[0]) && Orderly(Do(s, calls[0]), calls[1..])
  }

  lemma {:induction false} KeptIn(rs: seq<Request>, c: string)
    ensures forall r :: r in Kept(rs, c) <==> r in rs && r.connection != c
  {
    if rs != [] {
      KeptIn(rs[1..], c);
      assert rs == [rs[0]] + rs[1..];
    }
  }

  lemma TailOwn(rs: seq<Request>)
    requires OwnChannels(rs) && rs != []
    ensures OwnChannels(rs[1..])
    ensures forall r :: r in rs[1..] ==> !SharedChannel(rs[0], r)
  {
    var t := rs[1..];
    forall i, j | 0 <= i < j < |t| ensures !SharedChannel(t[i], t[j]) {
      assert !SharedChannel(rs[i + 1], rs[j + 1]);
    }
    forall r | r in t ensures !SharedChannel(rs[0], r) {
      var j :| 0 <= j < |t| && t[j] == r;
      assert rs[j + 1] == r;
    }
  }

  lemma ConsOwn(r: Request, rs: seq<Request>)
    requires OwnChannels(rs) && forall q :: q in rs ==> !SharedChannel(r, q)
    ensures OwnChannels([r] + rs)
  {
    var all := [r] + rs;
    forall i, j | 0 <= i < j < |all| ensures !SharedChannel(all[i], all[j]) {
      assert all[j] == rs[j - 1] && (i > 0 ==> all[i] == rs[i - 1]);
    }
  }

  lemma {:induction false} KeptOwn(rs: seq<Request>, c: string)
    requires OwnChannels(rs)
    ensures OwnChannels(Kept(rs, c))
  {
    if rs != [] {
      TailOwn(rs);
      KeptOwn(rs[1..], c);
      KeptIn(rs[1..], c);
      ConsOwn(rs[0], Kept(rs[1..], c));
    }
  }

  lemma KeptOpen(s: Pending, c: string, approved: bool, r: Request)
    requires Settled(s) && r in s.requests && r.connection != c
    ensures Open(r, s.signals + Released(s.requests, c, approved))
  {
    if r.approved.Some? {
      var ch := r.approved.value;
      ReleasedTells(s.requests, c, approved, ch);
      if Closed(ch) in Released(s.requests, c, approved) {
        var q :| q in s.requests && q.connection == c && q.approved == Some(ch);
        DifferentOwn(s.requests, q, r);
      }
      assert Open(r, s.signals);
    }
  }

  lemma DifferentOwn(rs: seq<Request>, q: Request, r: Request)
    requires OwnChannels(rs) && q in rs && r in rs && q != r
    ensures !SharedChannel(q, r)
  {
    var i :| 0 <= i < |rs| && rs[i] == q;
    var j :| 0 <= j < |rs| && rs[j] == r;
    assert if i < j then !SharedChannel(rs[i], rs[j]) else !SharedChannel(rs[j], rs[i]);
  }

  lemma StaysSettled(s: Pending, call: Call)
    requires Settled(s) && Allowed(s, call)
    ensures Settled(Do(s, call))
  {
    match call
    case Add(r) =>
      var all := s.requests + [r];
      forall i, j | 0 <= i < j < |all| ensures !SharedChannel(all[i], all[j]) {
        assert all[i] == s.requests[i] && all[i] in s.requests;
        assert j < |s.requests| ==> !SharedChannel(s.requests[i], s.requests[j]);
      }
    case Remove(c, approved) =>
      KeptOwn(s.requests, c);
      KeptIn(s.requests, c);
      forall r | r in Kept(s.requests, c) ensures Open(r, s.signals + Released(s.requests, c, approved)) {
        KeptOpen(s, c, approved, r);
      }
  }

  // Removing an allowed connection does what it should.
  lemma SettledRemoves(s: Pending, c: string, approved: bool)
    requires Settled(s) && Allowed(s, Remove(c, approved))
    ensures !Panics(s.requests, c)
    ensures Pending(Sweep(s.requests, c, 0), s.signals + Swept(s.requests, c, approved, 0))
      == Do(s, Remove(c, approved))
  {
    RemovesExactly(s.requests, c, approved);
  }

  ghost function View(store: Store): Pending
    requires store.Valid()
    reads store, store.backing
  {
    Pending(store.Requests(), store.signals)
  }

  // In an orderly run nothing ever panics: each removal takes out exactly the
  // connection's requests and releases exactly their handlers.
  method Serve(store: Store, calls: seq<Call>)
    requires store.Valid() && Settled(View(store)) && Orderly(View(store), calls)
    modifies store, store.backing
    ensures store.Valid() && Settled(View(store))
    ensures View(store) == DoAll(old(View(store)), calls)
  {
    ghost var start := View(store);
    for n := 0 to |calls|
      invariant store.Valid() && (store.backing == old(store.backing) || fresh(store.backing))
      invariant Settled(View(store)) && Orderly(View(store), calls[n..])
      invariant DoAll(View(store), calls[n..]) == DoAll(start, calls)
    {
      ghost var s := View(store);
      assert calls[n..][0] == calls[n] && calls[n..][1..] == calls[n + 1..];
      StaysSettled(s, calls[n]);
      match calls[n] {
        case Add(r) => store.AddRequest(r);
        case Remove(c, approved) =>
          SettledRemoves(s, c, approved);
          var panicked := store.RemoveRequest(c, approved);
      }
      assert View(store) == Do(s, calls[n]);
    }
  }

  // ---- one request per connection ------------------------------------------------------

  ghost predicate OneEach(rs: seq<Request>) {
    forall i, j :: 0 <= i < j < |rs| ==> rs[i].connection != rs[j].connection
  }

  // Every connection waits for its request to be removed before it adds another.
  ghost predicate Patient(s: Pending, calls: seq<Call>)
    decreases |calls|
  {
    calls != [] ==>
      && (match calls[0]
          case Add(r) =>
            Allowed(s, calls[0]) && forall q :: q in s.requests ==> q.connection != r.connection
          case Remove(_, _) => true)
      && Patient(Do(s, calls[0]), calls[1..])
  }

  // Such runs are orderly.
  lemma {:induction false} PatientIsOrderly(s: Pending, calls: seq<Call>)
    requires OneEach(s.requests) && Patient(s, calls)
    ensures Orderly(s, calls)
    decreases |calls|
  {
    if calls != [] {
      match calls[0] {
        case Add(r) =>
          assert forall i :: 0 <= i < |s.requests| ==> s.requests[i] in s.requests;
        case Remove(c, _) =>
          OnePerConnection(s.requests, c);
          KeptOneEach(s.requests, c);
      }
      PatientIsOrderly(Do(s, calls[0]), calls[1..]);
    }
  }

  lemma {:induction false} KeptOneEach(rs: seq<Request>, c: string)
    requires OneEach(rs)
    ensures OneEach(Kept(rs, c))
  {
    if rs != [] {
      var t := rs[1..];
      assert forall i :: 0 <= i < |t| ==> t[i] == rs[i + 1];
      KeptOneEach(t, c);
      KeptIn(t, c);
      var k := Kept(t, c);
      assert forall i :: 0 <= i < |k| ==> k[i] in t;
    }
  }

  // ---- what the handlers are told over a whole run ---------------------------------

  // Nothing is sent on a closed channel, and none is closed twice.
  ghost predicate Tidy(signals: seq<Signal>) {
    forall i, j :: 0 <= i < j < |signals| && signals[i].Closed? ==> signals[i].channel != signals[j].channel
  }

  // What comes later speaks of channels that are still open.
  lemma TidyConcat(a: seq<Signal>, b: seq<Signal>)
    requires Tidy(a) && Tidy(b)
    requires forall g :: g in b ==> Closed(g.channel) !in a
    ensures Tidy(a + b)
  {
    var all := a + b;
    forall i, j | 0 <= i < j < |all| && all[i].Closed? ensures all[i].channel != all[j].channel {
      if i < |a| <= j {
        assert all[i] in a && all[j] in b;
      }
    }
  }

  // Releasing speaks of the channels of the connection's requests only.
  lemma {:induction false} ReleasedSpeaks(rs: seq<Request>, c: string, approved: bool, g: Signal)
    requires g in Released(rs, c, approved)
    ensures exists r :: r in rs && r.approved == Some(g.channel)
  {
    if rs[0].connection == c && g in SignalsOf(rs[0], approved) {
      assert rs[0] in rs;
    } else {
      ReleasedSpeaks(rs[1..], c, approved, g);
    }
  }

  lemma {:induction false} ReleasedTidy(rs: seq<Request>, c: string, approved: bool)
    requires OwnChannels(rs)
    ensures Tidy(Released(rs, c, approved))
  {
    if rs != [] {
      TailOwn(rs);
      ReleasedTidy(rs[1..], c, approved);
      if rs[0].connection == c {
        var told := SignalsOf(rs[0], approved);
        forall g | g in Released(rs[1..], c, approved) ensures Closed(g.channel) !in told {
          ReleasedSpeaks(rs[1..], c, approved, g);
        }
        TidyConcat(told, Released(rs[1..], c, approved));
      }
    }
  }

  lemma StaysTidy(s: Pending, call: Call)
    requires Settled(s) && Tidy(s.signals)
    ensures Tidy(Do(s, call).signals)
  {
    match call
    case Add(_) =>
    case Remove(c, approved) =>
      var told := Released(s.requests, c, approved);
      ReleasedTidy(s.requests, c, approved);
      forall g | g in told ensures Closed(g.channel) !in s.signals {
        ReleasedSpeaks(s.requests, c, approved, g);
        var r :| r in s.requests && r.approved == Some(g.channel);
        assert Open(r, s.signals);
      }
      TidyConcat(s.signals, told);
  }

  lemma {:induction false} TidyThroughout(s: Pending, calls: seq<Call>)
    requires Settled(s) && Orderly(s, calls) && Tidy(s.signals)
    ensures Tidy(DoAll(s, calls).signals)
    decreases |calls|
  {
    if calls != [] {
      StaysSettled(s, calls[0]);
      StaysTidy(s, calls[0]);
      TidyThroughout(Do(s, calls[0]), calls[1..]);
    }
  }

  lemma {:induction false} StaysTold(s: Pending, calls: seq<Call>, g: Signal)
    requires g in s.signals
    ensures g in DoAll(s, calls).signals
    decreases |calls|
  {
    if calls != [] {
      StaysTold(Do(s, calls[0]), calls[1..], g);
    }
  }

  // No handler is forgotten: a pending request stays pending until its channel is closed.
  lemma {:induction false} NobodyForgotten(s: Pending, calls: seq<Call>, r: Request)
    requires r in s.requests && r.approved.Some?
    ensures var end := DoAll(s, calls); r in end.requests || Closed(r.approved.value) in end.signals
    decreases |calls|
  {
    if calls != [] {
      var next := Do(s, calls[0]);
      if calls[0].Remove? {
        KeptIn(s.requests, calls[0].connection);
        ReleasedTells(s.requests, calls[0].connection, calls[0].approved, r.approved.value);
      }
      if r in next.requests {
        NobodyForgotten(next, calls[1..], r);
      } else {
        StaysTold(next, calls[1..], Closed(r.approved.value));
      }
    }
  }

  // ---- who is told that the request was approved ----------------------------------------

  // Some approval took out a request that waits on the channel.
  ghost predicate ApprovedOver(s: Pending, calls: seq<Call>, ch: nat)
    decreases |calls|
  {
    calls != [] &&
      ((calls[0].Remove? && calls[0].approved
        && exists r :: r in s.requests && r.connection == calls[0].connection && r.approved == Some(ch))
       || ApprovedOver(Do(s, calls[0]), calls[1..], ch))
  }

  // Over a whole run a handler is told true if and only if an approval took its request out.
  lemma {:induction false} ToldIffApproved(s: Pending, calls: seq<Call>, ch: nat)
    ensures Sent(ch) in DoAll(s, calls).signals <==> Sent(ch) in s.signals || ApprovedOver(s, calls, ch)
    decreases |calls|
  {
    if calls != [] {
      if calls[0].Remove? {
        ReleasedTells(s.requests, calls[0].connection, calls[0].approved, ch);
      }
      ToldIffApproved(Do(s, calls[0]), calls[1..], ch);
    }
  }
}
