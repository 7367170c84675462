// Devices and lists of them (models/devices/device.go, state.go): comparison, copies, and
// the grouping of all states by node. A nil state or trait list is None: comparing
// distinguishes it from an empty one.
module DeviceList {
  import opened Devices
  import opened Sequences

  // State.Equal: both nil or neither, the same length, and every key of the left side
  // the same on the right.
  method EqualState(left: Option<State>, other: Option<State>) returns (equal: bool)
    ensures equal <==> left == other
  {
    if (left == None) != (other == None) {
      return false;
    }
    var ds, right := Read(left), Read(other);
    if |ds| != |right| {
      return false;
    }
    var todo := ds.Keys;
    while todo != {}
      invariant todo <= ds.Keys
      invariant forall k :: k in ds && k !in todo ==> k in right && ds[k] == right[k]
      decreases |todo|
    {
      var k :| k in todo;
      todo := todo - {k};
      if k !in right || ds[k] != right[k] {
        return false;
      }
    }
    SameSize(ds.Keys, right.Keys);
    assert ds == right;
    return true;
  }

  lemma SameSize(a: set<string>, b: set<string>)
    requires a <= b && |a| == |b|
    ensures a == b
  {
    assert |b - a| == 0;
  }

  // Everything a device is compared by, apart from its id.
  datatype Look = Look(
    kind: string, name: string, alias: string, online: bool, state: Option<State>, traits: Option<seq<string>>)

  function LookOf(d: Device): Look
    reads d
  {
    Look(d.kind, d.name, d.alias, d.online, d.state, d.traits)
  }

  // What Copy makes of it: the alias is left behind, and the cloned state is never nil.
  function Copied(l: Look): Look {
    l.(alias := "", state := Some(Read(l.state)))
  }

  method Equal(d: Device, dev: Device) returns (equal: bool)
    ensures equal <==> LookOf(d) == LookOf(dev)
    ensures equal <==>
      && d.kind == dev.kind && d.name == dev.name && d.alias == dev.alias && d.online == dev.online
      && d.state == dev.state && d.traits == dev.traits
  {
    var sameState := EqualState(d.state, dev.state);
    if !sameState || d.kind != dev.kind || d.name != dev.name || d.alias != dev.alias || d.online != dev.online {
      return false;
    }
    equal := SliceIsEqual(d.traits, dev.traits);
  }

  method SliceIsEqual(left: Option<seq<string>>, right: Option<seq<string>>) returns (equal: bool)
    ensures equal <==> left == right
  {
    if (left == None) != (right == None) {
      return false;
    }
    if left == None {
      return true;
    }
    var a, b := left.value, right.value;
    if |a| != |b| {
      return false;
    }
    for i := 0 to |a|
      invariant a[..i] == b[..i]
    {
      if a[i] != b[i] {
        return false;
      }
    }
    assert a[..|a|] == a && b[..|b|] == b;
    return true;
  }

  // A new object that looks as a copy of d should.
  twostate predicate IsCopy(new c: Device, d: Device)
    reads c, d
  {
    fresh(c) && c.id == d.id && LookOf(c) == Copied(LookOf(d))
  }

  method Copy(d: Device) returns (c: Device)
    ensures IsCopy(c, d)
  {
    var newState := Overlay(map[], Read(d.state));
    assert newState == Read(d.state);
    c := new Device(d.id, d.kind, d.name, d.traits, d.online, Some(newState));
  }

  // So a copy compares equal to the original exactly when there was no alias to lose and
  // no nil state to replace.
  method CopyIsEqual(d: Device) returns (equal: bool)
    ensures equal <==> d.alias == "" && d.state != None
  {
    var c := Copy(d);
    equal := Equal(d, c);
  }

  class List {
    var devices: map<ID, Device>

    // Devices are listed under their own id.
    ghost predicate Valid()
      reads this
    {
      forall id :: id in devices ==> devices[id].id == id
    }

    function States(): (states: map<ID, Option<State>>)
      reads this, devices.Values
      ensures states.Keys == devices.Keys && forall id :: id in devices ==> states[id] == devices[id].state
    {
      map id | id in devices :: devices[id].state
    }

    constructor ()
      ensures Valid() && devices == map[]
    {
      devices := map[];
    }

    method Add(dev: Device)
      requires Valid()
      modifies this
      ensures Valid() && devices == old(devices)[dev.id := dev]
    {
      devices := devices[dev.id := dev];
    }

    // False when there is no such device.
    method SetState(id: ID, state: Option<State>) returns (ok: bool)
      requires Valid()
      modifies if id in devices then {devices[id]} else {}
      ensures ok <==> id in devices
      ensures ok ==> LookOf(devices[id]) == old(LookOf(devices[id])).(state := state)
    {
      ok := id in devices;
      if ok {
        devices[id].state := state;
      }
    }

    // New objects throughout: changing a listed device of one list leaves the other alone.
    method CopyList() returns (newD: List)
      requires Valid()
      ensures fresh(newD) && newD.Valid() && newD.devices.Keys == devices.Keys
      ensures forall id :: id in devices ==> IsCopy(newD.devices[id], devices[id])
    {
      newD := new List();
      var todo := devices.Keys;
      while todo != {}
        invariant todo <= devices.Keys && fresh(newD) && newD.Valid()
        invariant newD.devices.Keys == devices.Keys - todo
        invariant forall id :: id in newD.devices ==> IsCopy(newD.devices[id], devices[id])
        decreases |todo|
      {
        var id :| id in todo;
        todo := todo - {id};
        var c := Copy(devices[id]);
        newD.Add(c);
      }
    }

    method StateGroupedByNode() returns (devicesByNode: map<string, map<ID, Option<State>>>)
      ensures devicesByNode == Groups(States())
    {
      devicesByNode := map[];
      var todo := devices.Keys;
      ghost var done: map<ID, Option<State>> := map[];
      while todo != {}
        invariant todo <= devices.Keys && done.Keys == devices.Keys - todo
        invariant forall id :: id in done ==> done[id] == devices[id].state
        invariant devicesByNode == Groups(done)
        decreases |todo|
      {
        var id :| id in todo;
        todo := todo - {id};
        InsertIsGroups(done, id, devices[id].state);
        done := done[id := devices[id].state];
        devicesByNode := Insert(devicesByNode, id, devices[id].state);
      }
      assert done == States();
    }
  }
}
