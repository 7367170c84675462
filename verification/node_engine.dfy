// The node as it runs: device objects changed in place, a list of pointers to them, and
// the worker's batch (pkg/node/node.go). Run drives it through any interleaving.
module NodeEngine {
  import opened Devices
  import opened Sequences
  import opened NodeSync
  import opened NodeRuns
  import NodeSettle
  import NodeAgreement

  class Node {
    const uuid: string
    var listed: map<string, Device>
    var callers: map<nat, Caller<Device>>
    var worker: Worker
    var server: map<string, Dev>
    // Every device object that the list or a caller has a pointer to.
    ghost var known: set<Device>

    ghost function Sys(): System<Device>
      reads this, known
    {
      System(map d: Device | d in known :: Copy(d), listed, callers, worker, server)
    }

    function Copy(d: Device): Dev
      reads d
    {
      Dev(d.id.id, d.kind, d.name, d.traits, d.online, Read(d.state))
    }

    constructor (uuid: string, callers: set<nat>)
      ensures Fresh(Sys()) && Sys().callers.Keys == callers && this.uuid == uuid
    {
      this.uuid := uuid;
      listed, worker, server, known := map[], Idle, map[], {};
      this.callers := map t | t in callers :: Free;
    }

    twostate lemma OneDeviceChanged(d: Device)
      requires d in known && known == old(known)
      requires forall x :: x in known && x != d ==> x.online == old(x.online) && x.state == old(x.state)
      requires listed == old(listed) && worker == old(worker) && server == old(server)
      ensures Sys() == old(Sys()).(objects := old(Sys()).objects[d := Copy(d)], callers := callers)
    {
      assert Sys().objects == old(Sys()).objects[d := Copy(d)];
    }

    // ---- updates

    method AddOrUpdate(t: nat, d: Device)
      requires Sys().Sane() && t in callers && callers[t].Free?
      modifies this
      ensures known == old(known) + {d}
      ensures old(d in known) ==> CanHappen(old(Sys()), AddKnown(t, d)) && Sys() == Happen(old(Sys()), AddKnown(t, d))
      ensures old(d !in known) ==>
        CanHappen(old(Sys()), AddNew(t, d, Copy(d))) && Sys() == Happen(old(Sys()), AddNew(t, d, Copy(d)))
    {
      if d in known {
        RelistEffect(Sys(), t, d);
      } else {
        ListEffect(Sys(), t, d, Copy(d));
      }
      known := known + {d};
      listed := listed[d.id.id := d];
      callers := callers[t := Sending(d.id.id)];
      assert Sys().objects == old(Sys()).objects[d := Copy(d)];
    }

    // UpdateState, up to releasing the read lock.
    method UpdateState(t: nat, id: string, newState: State)
      requires Sys().Sane() && t in callers && callers[t].Free?
      modifies this`callers
      ensures Sys() == Happen(old(Sys()), ReadState(t, id, newState))
    {
      if id !in listed {
        ReadNothing(Sys(), t, id, newState);
        return;
      }
      if newState == map[] {
        ReadNothing(Sys(), t, id, newState);
        return;
      }
      var device := listed[id];
      var diff := Diff(Read(device.state), newState);
      if diff == map[] {
        ReadNothing(Sys(), t, id, newState);
        return;
      }
      ReadEffect(Sys(), t, id, newState);
      callers := callers[t := Merging(device, diff)];
    }

    // UpdateState, under the write lock. Merging into a nil state panics.
    method MergeDiff(t: nat) returns (panicked: bool)
      requires Sys().Sane() && t in callers && callers[t].Merging?
      modifies this`callers, callers[t].ref`state
      ensures panicked <==> old(callers[t].ref.state) == None && old(callers)[t].diff != map[]
      ensures !panicked ==> Sys() == Happen(old(Sys()), MergeState(t))
      ensures panicked ==> Sys() == old(Sys()) && callers == old(callers) && callers[t].ref.state == None
      ensures old(callers[t].ref.state).Some? ==> old(callers)[t].ref.state.Some?
    {
      var device := callers[t].ref;
      panicked := device.MergeWith(callers[t].diff);
      if !panicked {
        callers := callers[t := Sending(device.id.id)];
      }
      OneDeviceChanged(device);
    }

    method SetDeviceOnline(t: nat, id: string, online: bool)
      requires Sys().Sane() && t in callers && callers[t].Free?
      modifies this`callers
      ensures Sys() == Happen(old(Sys()), ReadOnline(t, id, online))
    {
      if id !in listed {
        return;
      }
      var device := listed[id];
      if device.online == online {
        return;
      }
      callers := callers[t := Switching(device, online)];
    }

    method SetOnline(t: nat)
      requires Sys().Sane() && t in callers && callers[t].Switching?
      modifies this`callers, callers[t].ref`online
      ensures Sys() == Happen(old(Sys()), WriteOnline(t))
    {
      var device := callers[t].ref;
      device.online := callers[t].online;
      callers := callers[t := Sending(device.id.id)];
      OneDeviceChanged(device);
    }

    // ---- a state-change request

    // Go on when a requested key differs.
    method CompareState(t: nat, id: string, state: State)
      requires Sys().Sane() && t in callers && callers[t].Free?
      modifies this`callers
      ensures Sys() == Happen(old(Sys()), RequestState(t, id, state))
    {
      if id !in listed {
        return;
      }
      var foundChange := FindChange(Read(listed[id].state), state);
      if foundChange {
        callers := callers[t := Deciding(id, state)];
      }
    }

    // The callback's error: back to the next request.
    method Refuse(t: nat)
      requires Sys().Sane() && t in callers && callers[t].Deciding?
      modifies this`callers
      ensures Sys() == Happen(old(Sys()), Decline(t))
    {
      callers := callers[t := Free];
    }

    function Target(t: nat): Device
      requires t in callers && callers[t].Deciding? && callers[t].id in listed
      reads this
    {
      listed[callers[t].id]
    }

    // List.SetState: the merge of the request with its own differences is the request.
    method SetState(t: nat)
      requires Sys().Sane() && t in callers && callers[t].Deciding?
      modifies this`callers, Target(t)`state
      ensures Sys() == Happen(old(Sys()), SetDirect(t))
      ensures forall d :: d in known && old(d.state.Some?) ==> d.state.Some?
    {
      var device := listed[callers[t].id];
      device.state := Some(callers[t].state);
      callers := callers[t := Fetching(callers[t].id)];
      OneDeviceChanged(device);
    }

    // Get, then marshal, then write: three steps.
    method GetDevice(t: nat)
      requires Sys().Sane() && t in callers && callers[t].Fetching?
      modifies this`callers
      ensures Sys() == Happen(old(Sys()), GetDirect(t))
    {
      callers := callers[t := Marshalling(listed[callers[t].id])];
    }

    method MarshalDevice(t: nat)
      requires Sys().Sane() && t in callers && callers[t].Marshalling?
      modifies this`callers
      ensures Sys() == Happen(old(Sys()), MarshalDirect(t))
    {
      callers := callers[t := Writing(Copy(callers[t].ref))];
    }

    method WriteDevice(t: nat)
      requires Sys().Sane() && t in callers && callers[t].Writing?
      modifies this`callers, this`server
      ensures Sys() == Happen(old(Sys()), WriteDirect(t))
    {
      server := server + map[callers[t].copy.id := callers[t].copy];
      callers := callers[t := Free];
    }

    // ---- the worker

    // The worker takes an id from the channel.
    method Receive(t: nat)
      requires Sys().Sane() && t in callers && callers[t].Sending? && !worker.Copying?
      modifies this`callers, this`worker
      ensures Sys() == Happen(old(Sys()), Rendezvous(t))
    {
      var id := callers[t].id;
      worker := Collecting((if worker.Idle? then [] else worker.que) + [id]);
      callers := callers[t := Free];
    }

    // A timer ends collecting, or the next device is copied, or the batch is written.
    method WorkStep()
      requires Sys().Sane() && worker != Idle
      modifies this`worker, this`server
      ensures CanHappen(old(Sys()), NodeSettle.NextWork(old(Sys())))
      ensures old(worker).Copying? && old(worker).rest != [] ==> Copied(old(worker), worker)
      ensures Sys() == Happen(old(Sys()), NodeSettle.NextWork(old(Sys())))
    {
      match worker {
        case Collecting(que) => worker := Copying(que, map[]);
        case Copying(rest, devs) =>
          if rest != [] {
            assert rest[0] in Queue(Sys().worker);
            worker := Copying(rest[1..], devs[rest[0] := Copy(listed[rest[0]])]);
          } else {
            server := server + devs;
            worker := Idle;
          }
      }
    }

    ghost predicate Copied(w: Worker, v: Worker)
      requires w.Copying? && w.rest != []
      reads this, listed.Values
    {
      && w.rest[0] in listed
      && v == Copying(w.rest[1..], w.devs[w.rest[0] := Copy(listed[w.rest[0]])])
    }

    // The copying loop when nobody acts in between: every queued device enters the batch
    // as it is now.
    method CopyAll()
      requires Sys().Sane() && worker.Copying? && worker.devs == map[]
      modifies this`worker, this`server
      ensures Sys().Sane() && worker.Copying? && worker.rest == [] && server == old(server)
      ensures forall id :: id in old(worker.rest) ==> id in listed
      ensures worker.devs == map id | id in old(worker.rest) :: Copy(listed[id])
    {
      ghost var que := worker.rest;
      ghost var done: seq<string> := [];
      while worker.rest != []
        invariant worker.Copying? && done + worker.rest == que
        invariant Sys().Sane() && server == old(server)
        invariant forall id :: id in done ==> id in listed && id in worker.devs
        invariant forall id :: id in worker.devs ==> id in done && worker.devs[id] == Copy(listed[id])
        decreases |worker.rest|
      {
        done := done + [worker.rest[0]];
        WorkStep();
      }
      assert done == que;
    }

    // ---- whole runs

    // Any one step that can happen now.
    method Perform(e: Event<Device>) returns (panicked: bool)
      requires Sys().Sane() && CanHappen(Sys(), e) && (e.AddNew? ==> Copy(e.ref) == e.dev)
      modifies this, known
      ensures Performed(old(Sys()), e, panicked)
      ensures known == old(known) + if e.AddNew? then {e.ref} else {}
      ensures forall d :: d in old(known) && old(d.state.Some?) ==> d.state.Some?
    {
      panicked := false;
      if ByRequest(e) {
        Answer(e);
      } else if ByWorker(e) {
        match e {
          case Rendezvous(t) => Receive(t);
          case EndCollect => WorkStep();
          case CopyNext => WorkStep();
          case WriteBatch => WorkStep();
        }
      } else {
        panicked := Change(e);
      }
    }

    method Answer(e: Event<Device>)
      requires Sys().Sane() && CanHappen(Sys(), e) && ByRequest(e)
      modifies this, known
      ensures known == old(known) && Sys() == Happen(old(Sys()), e)
      ensures forall d :: d in known && old(d.state.Some?) ==> d.state.Some?
    {
      match e {
        case RequestState(t, id, state) => CompareState(t, id, state);
        case Decline(t) => Refuse(t);
        case SetDirect(t) => SetState(t);
        case GetDirect(t) => GetDevice(t);
        case MarshalDirect(t) => MarshalDevice(t);
        case WriteDirect(t) => WriteDevice(t);
      }
    }

    method Change(e: Event<Device>) returns (panicked: bool)
      requires Sys().Sane() && CanHappen(Sys(), e) && !ByRequest(e) && !ByWorker(e)
      requires e.AddNew? ==> Copy(e.ref) == e.dev
      modifies this, known
      ensures Performed(old(Sys()), e, panicked)
      ensures known == old(known) + if e.AddNew? then {e.ref} else {}
      ensures forall d :: d in old(known) && old(d.state.Some?) ==> d.state.Some?
    {
      panicked := false;
      match e {
        case AddNew(t, d, _) => AddOrUpdate(t, d);
        case AddKnown(t, d) => AddOrUpdate(t, d);
        case ReadState(t, id, newState) => UpdateState(t, id, newState);
        case MergeState(t) => panicked := MergeDiff(t);
        case ReadOnline(t, id, online) => SetDeviceOnline(t, id, online);
        case WriteOnline(t) => SetOnline(t);
      }
    }

    // A whole run: any events that can happen in this order, up to the first panic. The
    // objects perform the run of the model; with a run that is careful, or has no
    // requests, they agree with the server whenever nothing is on its way. Without nil
    // states there is no panic.
    method Run(es: seq<Event<Device>>) returns (done: nat)
      requires Sys().Sane() && Possible(Sys(), es) && Prepared(es)
      modifies this, known, Added(es)
      ensures Stands(old(Sys()), es, done)
      ensures done < |es| ==> MergesNil(es[done])
      ensures old(AllStates(known + Added(es))) ==> done == |es|
      ensures Fresh(old(Sys())) && NodeSettle.Quiet(Sys()) && Spared(old(Sys()), es[..done]) ==> Agreed()
    {
      ghost var s := Sys();
      var panicked := false;
      done := 0;
      while done < |es| && !panicked
        invariant done <= |es| && Stands(s, es, done) && Prepared(es)
        invariant panicked ==> done < |es| && MergesNil(es[done])
        invariant old(known) <= known <= old(known) + Added(es)
        invariant old(AllStates(known + Added(es))) ==> AllStates(known + Added(es)) && !panicked
        decreases |es| - done, !panicked
      {
        panicked := Advance(s, es, done);
        if !panicked {
          done := done + 1;
        }
      }
      AgreesWhenQuiet(s, es, done);
    }

    // The next step of a run.
    method Advance(ghost s: System<Device>, es: seq<Event<Device>>, done: nat) returns (panicked: bool)
      requires s.Sane() && Possible(s, es) && done < |es| && Stands(s, es, done) && Prepared(es)
      modifies this, known
      ensures old(known) <= known <= old(known) + Added(es) && Prepared(es)
      ensures if panicked then Stands(s, es, done) && MergesNil(es[done]) else Stands(s, es, done + 1)
      ensures old(AllStates(known + Added(es))) ==> AllStates(known + Added(es)) && !panicked
    {
      RunPrefix(s, es, done);
      panicked := Perform(es[done]);
      if !panicked {
        RunSnoc(s, es[..done], es[done]);
        assert es[..done + 1] == es[..done] + [es[done]];
      }
    }

    ghost predicate Stands(s: System<Device>, es: seq<Event<Device>>, done: nat)
      reads this, known
    {
      s.Sane() && done <= |es| && Possible(s, es[..done]) && Sys() == After(s, es[..done])
    }

    // An object the node does not know yet looks as the event that adds it says.
    ghost predicate Prepared(es: seq<Event<Device>>)
      reads this, Added(es)
    {
      forall i :: 0 <= i < |es| && es[i].AddNew? && es[i].ref !in known ==> Copy(es[i].ref) == es[i].dev
    }

    // The server has every listed object as it is.
    ghost predicate Agreed()
      reads this, known
    {
      forall id :: id in listed ==>
        && listed[id] in known && id in server && server[id] == Copy(listed[id])
        && var d, sent := listed[id], server[id];
        && sent.id == d.id.id && sent.kind == d.kind && sent.name == d.name && sent.traits == d.traits
        && sent.online == d.online && sent.state == Read(d.state)
    }

    lemma AgreesWhenQuiet(s: System<Device>, es: seq<Event<Device>>, done: nat)
      requires Stands(s, es, done)
      ensures Fresh(s) && NodeSettle.Quiet(Sys()) && Spared(s, es[..done]) ==> Agreed()
    {
      if Fresh(s) && Spared(s, es[..done]) {
        NodeAgreement.QuietMeansAgreement(s, es[..done]);
      }
    }

    static ghost predicate Spared(s: System<Device>, es: seq<Event<Device>>) {
      s.Sane() && Possible(s, es) && (NodeAgreement.NoRequests(s, es) || NodeAgreement.Careful(s, es))
    }

    static function Added(es: seq<Event<Device>>): set<Device> {
      set i | 0 <= i < |es| && es[i].AddNew? :: es[i].ref
    }

    static predicate AllStates(devices: set<Device>)
      reads devices
    {
      forall d :: d in devices ==> d.state.Some?
    }

    ghost predicate Performed(s: System<Device>, e: Event<Device>, panicked: bool)
      requires s.Sane() && CanHappen(s, e)
      reads this, known
    {
      if panicked then Sys() == s && MergesNil(e) else Sys() == Happen(s, e)
    }

    // A merge into an object with a nil state.
    ghost predicate MergesNil(e: Event<Device>)
      reads this, known
    {
      && e.MergeState? && e.t in callers && callers[e.t].Merging?
      && callers[e.t].ref in known && callers[e.t].ref.state == None
    }
  }

  // Compare the requested keys with the state of the device.
  method FindChange(oldState: State, state: State) returns (foundChange: bool)
    ensures foundChange <==> DiffOf(oldState, state) != map[]
  {
    ghost var diff := DiffOf(oldState, state);
    DiffKeys(oldState, state);
    foundChange := false;
    var todo := state.Keys;
    while todo != {}
      invariant todo <= state.Keys
      invariant foundChange <==> exists k :: k in diff && k !in todo
      decreases |todo|
    {
      var k :| k in todo;
      todo := todo - {k};
      if k !in oldState || oldState[k] != state[k] {
        assert k in diff;
        foundChange := true;
      }
    }
    assert foundChange <==> exists k :: k in diff;
  }
}
