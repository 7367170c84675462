// What an update of a device leaves, and runs in which it is lost or the server is left
// behind (pkg/node/node.go).
module NodeUpdates {
  import opened Devices
  import opened NodeSync
  import opened NodeRuns
  import opened NodeSettle
  import opened NodeAgreement

  // Every key of newState has its value in state.
  predicate Holds(state: State, newState: State) {
    forall k :: k in newState ==> k in state && state[k] == newState[k]
  }

  // What the update found in place already is still there.
  predicate KeptInPlace(before: State, newState: State, now: State) {
    forall k :: k in newState && k in before && before[k] == newState[k] ==> k in now && now[k] == newState[k]
  }

  // Undisturbed, UpdateState merges the new state: in two steps when it differs, and
  // otherwise by doing nothing.
  lemma UpdateApplies<R>(s: System<R>, t: nat, id: string, newState: State)
    requires s.Sane() && CanHappen(s, ReadState(t, id, newState)) && id in s.listed
    ensures var m := Happen(s, ReadState(t, id, newState));
      if CanHappen(m, MergeState(t)) then
        var n := Happen(m, MergeState(t));
        n.Current(id).state == s.Current(id).state + newState && n.callers[t] == Sending(id)
      else m == s && s.Current(id).state + newState == s.Current(id).state
  {
    var d := DiffOf(s.Current(id).state, newState);
    assert newState == map[] ==> s.Current(id).state + newState == s.Current(id).state;
  }

  lemma MergedHolds(before: State, now: State, newState: State)
    ensures Holds(now + DiffOf(before, newState), newState) <==> KeptInPlace(before, newState, now)
  {
    DiffKeys(before, newState);
    var after := now + DiffOf(before, newState);
    assert forall k :: k in newState && k !in DiffOf(before, newState) ==> (k in after <==> k in now);
  }

  // Others may act between the two steps. The device then holds the new state afterwards
  // exactly when: the object that was read is still the listed one, and what the update
  // found in place there still is; or another object is listed, and holds it by itself.
  lemma UpdateHoldsIff<R>(s: System<R>, t: nat, before: State, newState: State)
    requires s.Sane() && CanHappen(s, MergeState(t)) && s.callers[t].diff == DiffOf(before, newState)
    ensures var r := s.callers[t].ref;
      var id := s.objects[r].id;
      id in s.listed &&
      (Holds(Happen(s, MergeState(t)).Current(id).state, newState) <==>
        if s.listed[id] == r then KeptInPlace(before, newState, s.objects[r].state)
        else Holds(s.Current(id).state, newState))
  {
    MergedHolds(before, s.objects[s.callers[t].ref].state, newState);
  }

  // It can fail: t finds key k in place and merges only the rest, while u changes k.
  lemma UpdateLost<R>(s: System<R>, t: nat, u: nat, id: string, wish: State, k: string, other: Value)
      returns (es: seq<Event<R>>)
    requires s.Sane() && id in s.listed && t in s.callers && u in s.callers && t != u
    requires s.callers[t].Free? && s.callers[u].Free?
    requires k in wish && k in s.Current(id).state && s.Current(id).state[k] == wish[k] != other
    requires DiffOf(s.Current(id).state, wish) != map[]
    ensures es == [ReadState(t, id, wish), ReadState(u, id, map[k := other])] + [MergeState(u), MergeState(t)]
    ensures Possible(s, es) && id in After(s, es).listed && !Holds(After(s, es).Current(id).state, wish)
  {
    var before, change: State := s.Current(id).state, map[k := other];
    assert DiffOf(before, change) != map[] by {
      DiffKeys(before, change);
      assert k in DiffOf(before, change);
    }
    var two := BothRead(s, t, u, id, wish, change);
    KeyTaken(After(s, two), t, u, id, before, k, other);
    RunSnoc(s, two, MergeState(u));
    var three := two + [MergeState(u)];
    LostAtLast(After(s, three), t, id, before, wish, k);
    RunSnoc(s, three, MergeState(t));
    es := three + [MergeState(t)];
    Behind(two, MergeState(u), MergeState(t));
  }

  lemma Behind<T>(s: seq<T>, x: T, y: T)
    ensures s + [x] + [y] == s + [x, y]
  {
  }

  lemma BothRead<R>(s: System<R>, t: nat, u: nat, id: string, wish: State, change: State) returns (es: seq<Event<R>>)
    requires s.Sane() && id in s.listed && t in s.callers && u in s.callers && t != u
    requires s.callers[t].Free? && s.callers[u].Free?
    requires DiffOf(s.Current(id).state, wish) != map[] && DiffOf(s.Current(id).state, change) != map[]
    ensures es == [ReadState(t, id, wish), ReadState(u, id, change)] && Possible(s, es)
    ensures After(s, es) == s.(callers := s.callers[t := Merging(s.listed[id], DiffOf(s.Current(id).state, wish))]
                                                    [u := Merging(s.listed[id], DiffOf(s.Current(id).state, change))])
  {
    ReadEffect(s, t, id, wish);
    var a := Happen(s, ReadState(t, id, wish));
    ReadEffect(a, u, id, change);
    es := [ReadState(t, id, wish), ReadState(u, id, change)];
    assert es[1..] == [ReadState(u, id, change)];
    RunOne(a, ReadState(u, id, change));
  }

  lemma KeyTaken<R>(s: System<R>, t: nat, u: nat, id: string, before: State, k: string, other: Value)
    requires s.Sane() && id in s.listed && t in s.callers && u in s.callers && t != u
    requires s.callers[u] == Merging(s.listed[id], DiffOf(before, map[k := other]))
    requires k in before && before[k] != other
    ensures CanHappen(s, MergeState(u))
    ensures var n := Happen(s, MergeState(u));
      && n.listed == s.listed && t in n.callers && n.callers[t] == s.callers[t]
      && k in n.Current(id).state && n.Current(id).state[k] == other
  {
    DiffKeys(before, map[k := other]);
    MergeEffect(s, u);
  }

  lemma LostAtLast<R>(s: System<R>, t: nat, id: string, before: State, wish: State, k: string)
    requires s.Sane() && id in s.listed && t in s.callers && s.callers[t] == Merging(s.listed[id], DiffOf(before, wish))
    requires k in wish && k in before && before[k] == wish[k]
    requires k in s.Current(id).state && s.Current(id).state[k] != wish[k]
    ensures CanHappen(s, MergeState(t)) && id in Happen(s, MergeState(t)).listed
    ensures !Holds(Happen(s, MergeState(t)).Current(id).state, wish)
  {
    UpdateHoldsIff(s, t, before, wish);
    MergeEffect(s, t);
  }

  // Or u lists another object under the id before t merges into the old one.
  lemma UpdateReplaced<R>(s: System<R>, t: nat, u: nat, id: string, wish: State, r: R, other: Dev)
    requires s.Sane() && id in s.listed && t in s.callers && u in s.callers && t != u
    requires s.callers[t].Free? && s.callers[u].Free?
    requires DiffOf(s.Current(id).state, wish) != map[]
    requires r !in s.objects && other.id == id && !Holds(other.state, wish)
    ensures CanHappen(s, ReadState(t, id, wish))
    ensures CanHappen(Happen(s, ReadState(t, id, wish)), AddNew(u, r, other))
    ensures var b := Happen(Happen(s, ReadState(t, id, wish)), AddNew(u, r, other));
      && CanHappen(b, MergeState(t)) && b.objects[b.callers[t].ref] == s.Current(id)
      && id in Happen(b, MergeState(t)).listed && !Holds(Happen(b, MergeState(t)).Current(id).state, wish)
  {
    var a := Happen(s, ReadState(t, id, wish));
    ReadEffect(s, t, id, wish);
    ListEffect(a, u, r, other);
    var b := Happen(a, AddNew(u, r, other));
    UpdateHoldsIff(b, t, s.Current(id).state, wish);
    MergeEffect(b, t);
  }

  // ---- the online flag ----------------------------------------------------------------

  // Undisturbed, SetDeviceOnline leaves the flag as asked for and the rest of the device as
  // it was: in two steps when the flag changes, and otherwise by doing nothing.
  lemma OnlineApplies<R>(s: System<R>, t: nat, id: string, online: bool)
    requires s.Sane() && CanHappen(s, ReadOnline(t, id, online)) && id in s.listed
    ensures var m, d := Happen(s, ReadOnline(t, id, online)), s.Current(id);
      if CanHappen(m, WriteOnline(t)) then
        var n := Happen(m, WriteOnline(t));
        && d.online != online && n.listed == s.listed && n.callers[t] == Sending(id)
        && n.Current(id) == Dev(d.id, d.kind, d.name, d.traits, online, d.state)
        && (forall r :: r in s.objects && r != s.listed[id] ==> r in n.objects && n.objects[r] == s.objects[r])
      else m == s && d.online == online
  {
  }

  // Whatever others did in between: the object that was read gets the flag, and nothing
  // else of it changes.
  lemma OnlineWritten<R>(s: System<R>, t: nat)
    requires s.Sane() && CanHappen(s, WriteOnline(t))
    ensures var r, v, n := s.callers[t].ref, s.callers[t].online, Happen(s, WriteOnline(t));
      && r in s.objects && n.listed == s.listed && n.callers[t] == Sending(s.objects[r].id)
      && n.objects == s.objects[r := n.objects[r]]
      && var d := s.objects[r]; n.objects[r] == Dev(d.id, d.kind, d.name, d.traits, v, d.state)
  {
  }

  // So the listed device has the flag afterwards exactly when it is the object that was
  // read, or has it by itself.
  lemma OnlineHoldsIff<R>(s: System<R>, t: nat)
    requires s.Sane() && CanHappen(s, WriteOnline(t))
    ensures var r, v := s.callers[t].ref, s.callers[t].online;
      var id := s.objects[r].id;
      id in s.listed &&
      (Happen(s, WriteOnline(t)).Current(id).online == v <==> s.listed[id] == r || s.Current(id).online == v)
  {
    OnlineWritten(s, t);
  }

  lemma OnlineRead<R>(s: System<R>, t: nat, id: string, online: bool)
    requires s.Sane() && CanHappen(s, ReadOnline(t, id, online)) && id in s.listed && s.Current(id).online != online
    ensures Happen(s, ReadOnline(t, id, online)) == s.(callers := s.callers[t := Switching(s.listed[id], online)])
  {
  }

  // It can fail: u lists another object under the id before t sets the flag of the old one.
  lemma OnlineReplaced<R>(s: System<R>, t: nat, u: nat, id: string, online: bool, r: R, other: Dev)
    requires s.Sane() && id in s.listed && t in s.callers && u in s.callers && t != u
    requires s.callers[t].Free? && s.callers[u].Free? && s.Current(id).online != online
    requires r !in s.objects && other.id == id && other.online != online
    ensures CanHappen(s, ReadOnline(t, id, online))
    ensures CanHappen(Happen(s, ReadOnline(t, id, online)), AddNew(u, r, other))
    ensures var b := Happen(Happen(s, ReadOnline(t, id, online)), AddNew(u, r, other));
      && CanHappen(b, WriteOnline(t)) && id in Happen(b, WriteOnline(t)).listed
      && Happen(b, WriteOnline(t)).Current(id).online != online
  {
    var a := Happen(s, ReadOnline(t, id, online));
    OnlineRead(s, t, id, online);
    ListEffect(a, u, r, other);
    ReplacedFlag(Happen(a, AddNew(u, r, other)), t, s.listed[id], id, online);
  }

  lemma ReplacedFlag<R>(s: System<R>, t: nat, ref: R, id: string, online: bool)
    requires s.Sane() && t in s.callers && s.callers[t] == Switching(ref, online)
    requires ref in s.objects && s.objects[ref].id == id && id in s.listed && s.listed[id] != ref
    requires s.Current(id).online != online
    ensures CanHappen(s, WriteOnline(t)) && id in Happen(s, WriteOnline(t)).listed
    ensures Happen(s, WriteOnline(t)).Current(id).online != online
  {
    OnlineWritten(s, t);
  }

  // ---- a request by itself ---------------------------------------------------------------

  // A request without a change, or for an unknown device, does nothing; otherwise the
  // callback decides.
  lemma RequestCompares<R>(s: System<R>, t: nat, id: string, state: State)
    requires s.Sane() && CanHappen(s, RequestState(t, id, state))
    ensures var n := Happen(s, RequestState(t, id, state));
      if id in s.listed && s.Current(id).state + state != s.Current(id).state then
        n == s.(callers := s.callers[t := Deciding(id, state)])
      else n == s
  {
  }

  // What each further step does: declined, nothing; otherwise the listed device gets the
  // requested state and nothing else, and the server the device as it was marshalled.
  lemma RequestSteps<R>(s: System<R>, t: nat)
    requires s.Sane() && t in s.callers
    ensures s.callers[t].Deciding? ==>
      Happen(s, Decline(t)) == s.(callers := s.callers[t := Free])
    ensures s.callers[t].Deciding? ==>
      var id, state := s.callers[t].id, s.callers[t].state;
      && id in s.listed
      && Happen(s, SetDirect(t)) == s.(objects := s.objects[s.listed[id] := s.Current(id).(state := state)],
                                       callers := s.callers[t := Fetching(id)])
    ensures s.callers[t].Fetching? ==>
      var id := s.callers[t].id;
      id in s.listed && Happen(s, GetDirect(t)) == s.(callers := s.callers[t := Marshalling(s.listed[id])])
    ensures s.callers[t].Marshalling? ==>
      var r := s.callers[t].ref;
      r in s.objects && Happen(s, MarshalDirect(t)) == s.(callers := s.callers[t := Writing(s.objects[r])])
    ensures s.callers[t].Writing? ==>
      var d := s.callers[t].copy;
      Happen(s, WriteDirect(t)) == s.(server := s.server[d.id := d], callers := s.callers[t := Free])
  {
    if s.callers[t].Writing? {
      var d := s.callers[t].copy;
      assert s.server + map[d.id := d] == s.server[d.id := d];
    }
  }

  // Undisturbed, a request leaves device and server with the requested state.
  lemma RequestApplies<R>(s: System<R>, t: nat, id: string, state: State) returns (es: seq<Event<R>>)
    requires s.Sane() && t in s.callers && s.callers[t] == Deciding(id, state)
    ensures es == [SetDirect(t), GetDirect(t)] + [MarshalDirect(t), WriteDirect(t)] && Possible(s, es)
    ensures id in s.listed && id in After(s, es).listed
    ensures After(s, es).Current(id) == s.Current(id).(state := state)
    ensures After(s, es).server == s.server[id := s.Current(id).(state := state)]
  {
    var first := RequestSet(s, t, id, state);
    var last := RequestWritten(After(s, first), t, id);
    RunConcat(s, first, last);
    es := first + last;
  }

  lemma RequestSet<R>(s: System<R>, t: nat, id: string, state: State) returns (es: seq<Event<R>>)
    requires s.Sane() && t in s.callers && s.callers[t] == Deciding(id, state)
    ensures es == [SetDirect(t), GetDirect(t)] && Possible(s, es) && id in s.listed
    ensures After(s, es) == s.(objects := s.objects[s.listed[id] := s.Current(id).(state := state)],
                               callers := s.callers[t := Marshalling(s.listed[id])])
  {
    var n := Happen(s, SetDirect(t));
    RequestSteps(s, t);
    RequestSteps(n, t);
    es := TwoSteps(s, SetDirect(t), GetDirect(t));
  }

  lemma RequestWritten<R>(s: System<R>, t: nat, id: string) returns (es: seq<Event<R>>)
    requires s.Sane() && t in s.callers && id in s.listed && s.callers[t] == Marshalling(s.listed[id])
    ensures es == [MarshalDirect(t), WriteDirect(t)] && Possible(s, es)
    ensures After(s, es).listed == s.listed && After(s, es).objects == s.objects
    ensures After(s, es).server == s.server[id := s.Current(id)]
  {
    var n := Happen(s, MarshalDirect(t));
    RequestSteps(s, t);
    RequestSteps(n, t);
    es := TwoSteps(s, MarshalDirect(t), WriteDirect(t));
  }

  lemma TwoSteps<R>(s: System<R>, e: Event<R>, f: Event<R>) returns (es: seq<Event<R>>)
    requires s.Sane() && CanHappen(s, e) && CanHappen(Happen(s, e), f)
    ensures es == [e, f] && Possible(s, es) && After(s, es) == Happen(Happen(s, e), f)
  {
    var none: seq<Event<R>> := [];
    var n := Happen(s, e);
    es := [e, f];
    assert es[1..] == [f] && es[1..][1..] == none;
    assert Possible(n, [f]) && After(n, [f]) == Happen(n, f);
  }

  // ---- state-change requests that leave the server behind ---------------------------------

  // From a run to a state with an unsettled device there is a way to the end, everything
  // quiet, with the server wrong.
  lemma ToTheEnd<R>(s: System<R>, es: seq<Event<R>>, id: string) returns (all: seq<Event<R>>)
    requires s.Sane() && Possible(s, es) && Lists(After(s, es), id) && !Settled(After(s, es), id)
    ensures Possible(s, all) && Quiet(After(s, all))
    ensures Lists(After(s, all), id) && After(s, all).Current(id) == After(s, es).Current(id)
    ensures !Right(After(s, all), id)
  {
    var rest := UnsettledEndsWrong(After(s, es), id);
    RunConcat(s, es, rest);
    all := es + rest;
  }

  // One listed object, two callers; what they and the worker are doing.
  ghost predicate Alone<R>(n: System<R>, r: R, d: Dev, w: Worker, zero: Caller<R>, one: Caller<R>) {
    && n.Sane() && n.listed == map[d.id := r] && n.objects == map[r := d] && n.worker == w
    && 0 in n.callers && n.callers[0] == zero && 1 in n.callers && n.callers[1] == one
    && forall t :: t in n.callers && t != 0 && t != 1 ==> n.callers[t].Free?
  }

  ghost predicate Lone<R>(s: System<R>, es: seq<Event<R>>, r: R, d: Dev, w: Worker, zero: Caller<R>, one: Caller<R>) {
    s.Sane() && Possible(s, es) && Alone(After(s, es), r, d, w, zero, one)
  }

  lemma LoneSnoc<R>(s: System<R>, es: seq<Event<R>>, e: Event<R>, r: R, d: Dev, w: Worker, zero: Caller<R>,
      one: Caller<R>)
    requires s.Sane() && Possible(s, es) && CanHappen(After(s, es), e)
    requires Alone(Happen(After(s, es), e), r, d, w, zero, one)
    ensures Lone(s, es + [e], r, d, w, zero, one)
  {
    RunSnoc(s, es, e);
  }

  lemma AloneAdds<R>(s: System<R>, r: R, d: Dev)
    requires Fresh(s) && 0 in s.callers && 1 in s.callers
    ensures CanHappen(s, AddNew(0, r, d)) && Alone(Happen(s, AddNew(0, r, d)), r, d, Idle, Sending(d.id), Free)
  {
  }

  lemma AloneHandsOver<R>(s: System<R>, r: R, d: Dev, one: Caller<R>)
    requires Alone(s, r, d, Idle, Sending(d.id), one)
    ensures CanHappen(s, Rendezvous(0)) && Alone(Happen(s, Rendezvous(0)), r, d, Collecting([d.id]), Free, one)
  {
  }

  lemma AloneCollects<R>(s: System<R>, r: R, d: Dev, one: Caller<R>)
    requires Alone(s, r, d, Collecting([d.id]), Free, one)
    ensures CanHappen(s, EndCollect) && Alone(Happen(s, EndCollect), r, d, Copying([d.id], map[]), Free, one)
  {
  }

  lemma AloneCopies<R>(s: System<R>, r: R, d: Dev, one: Caller<R>)
    requires Alone(s, r, d, Copying([d.id], map[]), Free, one)
    ensures CanHappen(s, CopyNext) && Alone(Happen(s, CopyNext), r, d, Copying([], map[d.id := d]), Free, one)
  {
  }

  lemma AloneWrites<R>(s: System<R>, r: R, d: Dev, one: Caller<R>)
    requires Alone(s, r, d, Copying([], map[d.id := d]), Free, one)
    ensures CanHappen(s, WriteBatch) && Alone(Happen(s, WriteBatch), r, d, Idle, Free, one)
  {
  }

  lemma AloneRequests<R>(s: System<R>, r: R, d: Dev, w: Worker, state: State)
    ensures Alone(s, r, d, w, Free, Free) && DiffOf(d.state, state) != map[] ==>
      CanHappen(s, RequestState(1, d.id, state))
      && Alone(Happen(s, RequestState(1, d.id, state)), r, d, w, Free, Deciding(d.id, state))
    ensures Alone(s, r, d, w, Free, Deciding(d.id, state)) ==>
      CanHappen(s, SetDirect(1)) && Alone(Happen(s, SetDirect(1)), r, d.(state := state), w, Free, Fetching(d.id))
  {
  }

  lemma AloneMarshals<R>(s: System<R>, r: R, d: Dev, w: Worker)
    ensures Alone(s, r, d, w, Free, Fetching(d.id)) ==>
      CanHappen(s, GetDirect(1)) && Alone(Happen(s, GetDirect(1)), r, d, w, Free, Marshalling(r))
    ensures Alone(s, r, d, w, Free, Marshalling(r)) ==>
      CanHappen(s, MarshalDirect(1)) && Alone(Happen(s, MarshalDirect(1)), r, d, w, Free, Writing(d))
  {
  }

  lemma AloneReads<R>(s: System<R>, r: R, d: Dev, w: Worker, newer: State, one: Caller<R>)
    requires DiffOf(d.state, newer) != map[] && Alone(s, r, d, w, Free, one)
    ensures CanHappen(s, ReadState(0, d.id, newer))
    ensures Alone(Happen(s, ReadState(0, d.id, newer)), r, d, w, Merging(r, DiffOf(d.state, newer)), one)
  {
    ReadEffect(s, 0, d.id, newer);
  }

  lemma AloneMerges<R>(s: System<R>, r: R, d: Dev, w: Worker, diff: State, one: Caller<R>)
    requires Alone(s, r, d, w, Merging(r, diff), one)
    ensures CanHappen(s, MergeState(0))
    ensures Alone(Happen(s, MergeState(0)), r, d.(state := d.state + diff), w, Sending(d.id), one)
  {
  }

  // Caller 0 adds a device and the worker copies it.
  lemma Added<R>(s: System<R>, r: R, d: Dev) returns (es: seq<Event<R>>)
    requires Fresh(s) && 0 in s.callers && 1 in s.callers
    ensures Lone(s, es, r, d, Copying([], map[d.id := d]), Free, Free)
  {
    es := [];
    AloneAdds(s, r, d);
    LoneSnoc(s, es, AddNew(0, r, d), r, d, Idle, Sending(d.id), Free);
    es := es + [AddNew(0, r, d)];
    AloneHandsOver(After(s, es), r, d, Free);
    LoneSnoc(s, es, Rendezvous(0), r, d, Collecting([d.id]), Free, Free);
    es := es + [Rendezvous(0)];
    AloneCollects(After(s, es), r, d, Free);
    LoneSnoc(s, es, EndCollect, r, d, Copying([d.id], map[]), Free, Free);
    es := es + [EndCollect];
    AloneCopies(After(s, es), r, d, Free);
    LoneSnoc(s, es, CopyNext, r, d, Copying([], map[d.id := d]), Free, Free);
    es := es + [CopyNext];
  }

  // A request to caller 1 sets another state.
  lemma Requested<R>(s: System<R>, es: seq<Event<R>>, r: R, d: Dev, w: Worker, state: State) returns (fs: seq<Event<R>>)
    requires Lone(s, es, r, d, w, Free, Free) && DiffOf(d.state, state) != map[]
    ensures Lone(s, fs, r, d.(state := state), w, Free, Fetching(d.id))
  {
    AloneRequests(After(s, es), r, d, w, state);
    LoneSnoc(s, es, RequestState(1, d.id, state), r, d, w, Free, Deciding(d.id, state));
    fs := es + [RequestState(1, d.id, state)];
    AloneRequests(After(s, fs), r, d, w, state);
    LoneSnoc(s, fs, SetDirect(1), r, d.(state := state), w, Free, Fetching(d.id));
    fs := fs + [SetDirect(1)];
  }

  // The batch with the older copy is written last.
  lemma RequestOvertaken<R>(s: System<R>, r: R, d: Dev, state: State) returns (es: seq<Event<R>>)
    requires Fresh(s) && 0 in s.callers && 1 in s.callers && DiffOf(d.state, state) != map[]
    ensures Possible(s, es) && Quiet(After(s, es))
    ensures Lists(After(s, es), d.id) && After(s, es).Current(d.id).state == state && !Right(After(s, es), d.id)
  {
    es := Added(s, r, d);
    es := Requested(s, es, r, d, Copying([], map[d.id := d]), state);
    var n := After(s, es);
    assert n.Current(d.id) == d.(state := state) && n.worker.devs[d.id] == d;
    assert state != d.state;
    assert forall t :: t in n.callers ==> !n.callers[t].Sending?;
    assert BatchStale(n, d.id) && !Announced(n, d.id);
    es := ToTheEnd(s, es, d.id);
  }

  // Everything is quiet when the request comes; while it is about to write what it
  // marshalled, caller 0 updates the device, and the request writes last.
  lemma RequestOvertakes<R>(s: System<R>, r: R, d: Dev, state: State, newer: State) returns (es: seq<Event<R>>)
    requires Fresh(s) && 0 in s.callers && 1 in s.callers
    requires DiffOf(d.state, state) != map[] && DiffOf(state, newer) != map[]
    ensures Possible(s, es) && Quiet(After(s, es))
    ensures Lists(After(s, es), d.id) && !Right(After(s, es), d.id)
    ensures After(s, es).Current(d.id).state == state + DiffOf(state, newer)
  {
    es := Added(s, r, d);
    AloneWrites(After(s, es), r, d, Free);
    LoneSnoc(s, es, WriteBatch, r, d, Idle, Free, Free);
    es := es + [WriteBatch];
    es := Requested(s, es, r, d, Idle, state);
    es := UpdatedMeanwhile(s, es, r, d.(state := state), newer);
    var n := After(s, es);
    assert state + DiffOf(state, newer) != state by {
      assert state + newer != state;
    }
    assert Differs(n, n.callers[1], d.id);
    es := ToTheEnd(s, es, d.id);
  }

  lemma UpdatedMeanwhile<R>(s: System<R>, es: seq<Event<R>>, r: R, d: Dev, newer: State) returns (fs: seq<Event<R>>)
    requires Lone(s, es, r, d, Idle, Free, Fetching(d.id)) && DiffOf(d.state, newer) != map[]
    ensures Lone(s, fs, r, d.(state := d.state + DiffOf(d.state, newer)), Idle, Sending(d.id), Writing(d))
  {
    AloneMarshals(After(s, es), r, d, Idle);
    LoneSnoc(s, es, GetDirect(1), r, d, Idle, Free, Marshalling(r));
    fs := es + [GetDirect(1)];
    AloneMarshals(After(s, fs), r, d, Idle);
    LoneSnoc(s, fs, MarshalDirect(1), r, d, Idle, Free, Writing(d));
    fs := fs + [MarshalDirect(1)];
    AloneReads(After(s, fs), r, d, Idle, newer, Writing(d));
    LoneSnoc(s, fs, ReadState(0, d.id, newer), r, d, Idle, Merging(r, DiffOf(d.state, newer)), Writing(d));
    fs := fs + [ReadState(0, d.id, newer)];
    AloneMerges(After(s, fs), r, d, Idle, DiffOf(d.state, newer), Writing(d));
    LoneSnoc(s, fs, MergeState(0), r, d.(state := d.state + DiffOf(d.state, newer)), Idle, Sending(d.id), Writing(d));
    fs := fs + [MergeState(0)];
  }
}
