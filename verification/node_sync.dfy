// How a node keeps the server's copy of its devices current (pkg/node/node.go): callers
// change a device and then hand its id to a worker that batches ids, copies the devices
// one by one and sends the batch; a state-change request from the server sets a device's
// state and writes the device itself. A step is what happens under one lock or one channel
// operation, with getting the pointer from the list where that comes first; steps interleave.
//
// Devices are never removed, and writing to the server succeeds.
module NodeSync {
  import opened Devices
  import opened Sequences

  // What a device object holds and a message carries; its id does not change. A nil state
  // reads as empty.
  datatype Dev = Dev(
    id: string, kind: string, name: string, traits: Option<seq<string>>, online: bool, state: State)

  // Where a caller is. R is the type of device pointers: a caller keeps the pointer
  // it got from the list even when the list is given another object meanwhile.
  datatype Caller<R> =
    | Free
    // UpdateState and SetDeviceOnline, between their two locks.
    | Merging(ref: R, diff: State)
    | Switching(ref: R, online: bool)
    // About to hand an id to the worker.
    | Sending(id: string)
    // A state-change request: in the node's callback; the state set; the device got from
    // the list; the device marshalled.
    | Deciding(id: string, state: State)
    | Fetching(id: string)
    | Marshalling(ref: R)
    | Writing(copy: Dev)

  datatype Worker =
    | Idle
    | Collecting(que: seq<string>)
    | Copying(rest: seq<string>, devs: map<string, Dev>)

  // Ids the worker has received and not yet copied.
  function Queue(w: Worker): seq<string> {
    match w
    case Idle => []
    case Collecting(que) => que
    case Copying(rest, _) => rest
  }

  datatype System<R> = System(
    objects: map<R, Dev>, listed: map<string, R>, callers: map<nat, Caller<R>>,
    worker: Worker, server: map<string, Dev>)
  {
    predicate Known(r: R) {
      r in objects && objects[r].id in listed
    }

    predicate Fits(c: Caller<R>) {
      match c
      case Free => true
      case Merging(r, _) => Known(r)
      case Switching(r, _) => Known(r)
      case Sending(id) => id in listed
      case Deciding(id, _) => id in listed
      case Fetching(id) => id in listed
      case Marshalling(r) => Known(r)
      case Writing(d) => d.id in listed
    }

    // Pointers that are held anywhere point to objects, the list under their own id;
    // whatever was handed over is listed.
    ghost predicate Sane() {
      && (forall id :: id in listed ==> listed[id] in objects && objects[listed[id]].id == id)
      && (forall t :: t in callers ==> Fits(callers[t]))
      && (forall id :: id in Queue(worker) ==> id in listed)
    }

    function Current(id: string): Dev
      requires id in listed && listed[id] in objects
    {
      objects[listed[id]]
    }
  }

  // ---- steps ----------------------------------------------------------------

  datatype Event<R> =
    // AddOrUpdate with an object of the caller's, or with one the node knows already.
    | AddNew(t: nat, ref: R, dev: Dev)
    | AddKnown(t: nat, ref: R)
    // UpdateState: the difference is computed under the read lock, merged later.
    | ReadState(t: nat, id: string, newState: State)
    | MergeState(t: nat)
    // SetDeviceOnline, likewise in two steps.
    | ReadOnline(t: nat, id: string, online: bool)
    | WriteOnline(t: nat)
    // OnRequestStateChange: the comparison; the callback refuses; or the state is set
    // under the list's lock, the device got, marshalled under its lock, and written.
    | RequestState(t: nat, id: string, state: State)
    | Decline(t: nat)
    | SetDirect(t: nat)
    | GetDirect(t: nat)
    | MarshalDirect(t: nat)
    | WriteDirect(t: nat)
    // The rendezvous on the unbuffered channel.
    | Rendezvous(t: nat)
    // The worker: a timer ends collecting; copy one device; write the batch.
    | EndCollect
    | CopyNext
    | WriteBatch

  ghost predicate CanHappen<R>(s: System<R>, e: Event<R>) {
    match e
    case AddNew(t, r, _) => t in s.callers && s.callers[t].Free? && r !in s.objects
    case AddKnown(t, r) => t in s.callers && s.callers[t].Free? && r in s.objects
    case ReadState(t, _, _) => t in s.callers && s.callers[t].Free?
    case MergeState(t) => t in s.callers && s.callers[t].Merging?
    case ReadOnline(t, _, _) => t in s.callers && s.callers[t].Free?
    case WriteOnline(t) => t in s.callers && s.callers[t].Switching?
    case RequestState(t, _, _) => t in s.callers && s.callers[t].Free?
    case Decline(t) => t in s.callers && s.callers[t].Deciding?
    case SetDirect(t) => t in s.callers && s.callers[t].Deciding?
    case GetDirect(t) => t in s.callers && s.callers[t].Fetching?
    case MarshalDirect(t) => t in s.callers && s.callers[t].Marshalling?
    case WriteDirect(t) => t in s.callers && s.callers[t].Writing?
    case Rendezvous(t) => t in s.callers && s.callers[t].Sending? && !s.worker.Copying?
    case EndCollect => s.worker.Collecting?
    case CopyNext => s.worker.Copying? && s.worker.rest != []
    case WriteBatch => s.worker.Copying? && s.worker.rest == []
  }

  // What a step consists of: a caller goes on, an object changes, the list points
  // elsewhere, the worker goes on, the server is written to.

  function Turn<R>(s: System<R>, t: nat, c: Caller<R>): (n: System<R>)
    requires s.Sane() && s.Fits(c)
    ensures n.Sane()
  {
    s.(callers := s.callers[t := c])
  }

  function Put<R>(s: System<R>, r: R, d: Dev): (n: System<R>)
    requires s.Sane() && (r in s.objects ==> s.objects[r].id == d.id)
    ensures n.Sane()
  {
    s.(objects := s.objects[r := d])
  }

  function Point<R>(s: System<R>, id: string, r: R): (n: System<R>)
    requires s.Sane() && r in s.objects && s.objects[r].id == id
    ensures n.Sane()
  {
    s.(listed := s.listed[id := r])
  }

  function Work<R>(s: System<R>, w: Worker): (n: System<R>)
    requires s.Sane() && forall id :: id in Queue(w) ==> id in s.listed
    ensures n.Sane()
  {
    s.(worker := w)
  }

  function Write<R>(s: System<R>, devs: map<string, Dev>): (n: System<R>)
    requires s.Sane()
    ensures n.Sane()
  {
    s.(server := s.server + devs)
  }

  // AddOrUpdate, UpdateState, SetDeviceOnline.
  function Update<R>(s: System<R>, e: Event<R>): (n: System<R>)
    requires s.Sane() && CanHappen(s, e) && !ByRequest(e) && !ByWorker(e)
    ensures n.Sane()
  {
    match e
    case AddNew(t, r, d) => Turn(Point(Put(s, r, d), d.id, r), t, Sending(d.id))
    case AddKnown(t, r) => Turn(Point(s, s.objects[r].id, r), t, Sending(s.objects[r].id))
    case ReadState(t, id, newState) => Turn(s, t, Found(s, id, newState))
    case MergeState(t) =>
      var r := s.callers[t].ref;
      var d := s.objects[r];
      Turn(Put(s, r, d.(state := d.state + s.callers[t].diff)), t, Sending(d.id))
    case ReadOnline(t, id, online) =>
      if id !in s.listed || s.Current(id).online == online then s
      else Turn(s, t, Switching(s.listed[id], online))
    case WriteOnline(t) =>
      var r := s.callers[t].ref;
      var d := s.objects[r];
      Turn(Put(s, r, d.(online := s.callers[t].online)), t, Sending(d.id))
  }

  // OnRequestStateChange.
  function Request<R>(s: System<R>, e: Event<R>): (n: System<R>)
    requires s.Sane() && CanHappen(s, e) && ByRequest(e)
    ensures n.Sane()
  {
    match e
    case RequestState(t, id, state) =>
      if id !in s.listed || DiffOf(s.Current(id).state, state) == map[] then s
      else Turn(s, t, Deciding(id, state))
    case Decline(t) => Turn(s, t, Free)
    case SetDirect(t) =>
      var id := s.callers[t].id;
      Turn(Put(s, s.listed[id], s.Current(id).(state := s.callers[t].state)), t, Fetching(id))
    case GetDirect(t) => Turn(s, t, Marshalling(s.listed[s.callers[t].id]))
    case MarshalDirect(t) => Turn(s, t, Writing(s.objects[s.callers[t].ref]))
    case WriteDirect(t) => Turn(Write(s, map[s.callers[t].copy.id := s.callers[t].copy]), t, Free)
  }

  // The worker.
  function Sync<R>(s: System<R>, e: Event<R>): (n: System<R>)
    requires s.Sane() && CanHappen(s, e) && ByWorker(e)
    ensures n.Sane()
  {
    match e
    case Rendezvous(t) => Turn(Work(s, Collecting(Queue(s.worker) + [s.callers[t].id])), t, Free)
    case EndCollect => Work(s, Copying(s.worker.que, map[]))
    case CopyNext =>
      var id := s.worker.rest[0];
      Work(s, Copying(s.worker.rest[1..], s.worker.devs[id := s.Current(id)]))
    case WriteBatch => Work(Write(s, s.worker.devs), Idle)
  }

  predicate ByRequest<R>(e: Event<R>) {
    e.RequestState? || e.Decline? || e.SetDirect? || e.GetDirect? || e.MarshalDirect? || e.WriteDirect?
  }

  predicate ByWorker<R>(e: Event<R>) {
    e.Rendezvous? || e.EndCollect? || e.CopyNext? || e.WriteBatch?
  }

  function Happen<R>(s: System<R>, e: Event<R>): (n: System<R>)
    requires s.Sane() && CanHappen(s, e)
    ensures n.Sane()
  {
    if ByRequest(e) then Request(s, e) else if ByWorker(e) then Sync(s, e) else Update(s, e)
  }

  // UpdateState up to releasing the read lock: nothing to do, or a difference to merge.
  function Found<R>(s: System<R>, id: string, newState: State): (c: Caller<R>)
    requires s.Sane()
    ensures s.Fits(c)
  {
    if id !in s.listed || newState == map[] || DiffOf(s.Current(id).state, newState) == map[] then Free
    else Merging(s.listed[id], DiffOf(s.Current(id).state, newState))
  }

  // ---- whole runs -------------------------------------------------------------

  // A node with no devices yet, and any number of callers.
  ghost predicate Fresh<R>(s: System<R>) {
    && s.objects == map[] && s.listed == map[] && s.worker == Idle
    && forall t :: t in s.callers ==> s.callers[t].Free?
  }

  // The events can happen in this order.
  ghost predicate Possible<R>(s: System<R>, es: seq<Event<R>>)
    requires s.Sane()
    decreases |es|
  {
    es == [] || (CanHappen(s, es[0]) && Possible(Happen(s, es[0]), es[1..]))
  }

  ghost function After<R>(s: System<R>, es: seq<Event<R>>): (n: System<R>)
    requires s.Sane() && Possible(s, es)
    ensures n.Sane()
    decreases |es|
  {
    if es == [] then s else After(Happen(s, es[0]), es[1..])
  }
}
