// Device identities and states, and the diff and merge that every mirror of a
// state is built on (models/devices/state.go, device.go).
module Devices {
  import opened Sequences

  datatype ID = ID(node: string, id: string)

  // A value in a device state; equality is value equality.
  datatype Value = Bool(b: bool) | Number(r: real) | Text(s: string)

  type State = map<string, Value>

  // ---- diff and merge -------------------------------------------------------

  // What right says that left does not: keys missing in right are no difference.
  function DiffOf(left: State, right: State): (d: State)
    ensures d == map[] <==> left + right == left
    ensures left + d == left + right
  {
    var d := map k | k in right && !(k in left && left[k] == right[k]) :: right[k];
    assert left + d == left + right;
    assert left + right == left ==> d == map[] by {
      if left + right == left {
        assert forall k :: k in right ==> k in left + right && (left + right)[k] == right[k];
        assert forall k :: k in right ==> k in left && left[k] == right[k];
      }
    }
    d
  }

  lemma DiffKeys(left: State, right: State)
    ensures forall k :: k in DiffOf(left, right) <==> k in right && !(k in left && left[k] == right[k])
    ensures forall k :: k in DiffOf(left, right) ==> DiffOf(left, right)[k] == right[k]
  {
  }

  // Both loops of the source: changed keys first, then keys only right has. The
  // order in which a Go map is ranged over is not fixed.
  method Diff(ds: State, right: State) returns (diff: State)
    ensures diff == DiffOf(ds, right)
  {
    diff := map[];
    var todo := ds.Keys;
    while todo != {}
      invariant todo <= ds.Keys
      invariant forall k :: k in diff <==> k in ds && k !in todo && k in right && ds[k] != right[k]
      invariant forall k :: k in diff ==> diff[k] == right[k]
      decreases |todo|
    {
      var k :| k in todo;
      todo := todo - {k};
      if k in right && ds[k] != right[k] {
        diff := diff[k := right[k]];
      }
    }
    todo := right.Keys;
    while todo != {}
      invariant todo <= right.Keys
      invariant forall k :: k in diff <==> k in right && if k in ds then ds[k] != right[k] else k !in todo
      invariant forall k :: k in diff ==> diff[k] == right[k]
      decreases |todo|
    {
      var k :| k in todo;
      todo := todo - {k};
      if k !in ds {
        diff := diff[k := right[k]];
      }
    }
  }

  // The loop m[k] = v over one map.
  method Overlay(base: State, right: State) returns (m: State)
    ensures m == base + right
  {
    m := base;
    var todo := right.Keys;
    while todo != {}
      invariant todo <= right.Keys
      invariant m == base + map k | k in right && k !in todo :: right[k]
      decreases |todo|
    {
      var k :| k in todo;
      todo := todo - {k};
      m := m[k := right[k]];
    }
    assert m == base + right;
  }

  method Merge(ds: State, right: State) returns (merged: State)
    ensures merged == ds + right
  {
    merged := Overlay(map[], ds);
    assert merged == ds;
    merged := Overlay(merged, right);
  }

  // A Go map that may be nil: None. Reading it, nil is like an empty map.
  function Read(m: Option<State>): State {
    match m
    case None => map[]
    case Some(s) => s
  }

  // A device as a node and the server hold it.
  class Device {
    const id: ID
    const kind: string
    const name: string
    const traits: Option<seq<string>>
    var alias: string
    var online: bool
    var state: Option<State>

    constructor (id: ID, kind: string, name: string, traits: Option<seq<string>>, online: bool, state: Option<State>)
      ensures this.id == id && this.kind == kind && this.name == name && this.traits == traits
      ensures alias == "" && this.online == online && this.state == state
    {
      this.id, this.kind, this.name, this.traits := id, kind, name, traits;
      this.alias, this.online, this.state := "", online, state;
    }

    // Assigning into a nil map panics.
    method MergeWith(right: State) returns (panicked: bool)
      modifies this`state
      ensures panicked <==> old(state) == None && right != map[]
      ensures panicked ==> state == old(state)
      ensures !panicked ==> Read(state) == Read(old(state)) + right && (state.None? <==> old(state).None?)
    {
      if state.None? {
        return right != map[];
      }
      var merged := Overlay(state.value, right);
      state := Some(merged);
      return false;
    }
  }

  // ---- a scene and its messages ---------------------------------------------

  type Scene = map<ID, State>

  function Nodes<V>(scene: map<ID, V>): set<string> {
    set id | id in scene.Keys :: id.node
  }

  function Group<V>(scene: map<ID, V>, node: string): map<ID, V> {
    map id | id in scene && id.node == node :: scene[id]
  }

  function Groups<V>(scene: map<ID, V>): map<string, map<ID, V>> {
    map n | n in Nodes(scene) :: Group(scene, n)
  }

  // Putting groups back together.
  function Ungroup<V>(groups: map<string, map<ID, V>>): map<ID, V> {
    map id | id in (set n, id | n in groups && id in groups[n] :: id) && id.node in groups && id in groups[id.node]
      :: groups[id.node][id]
  }

  // Grouping is a partition: every entry is in exactly the group of its own node,
  // no group is empty, and the groups together are the scene.
  lemma GroupingIsPartition<V>(scene: map<ID, V>)
    ensures forall id, n :: n in Groups(scene) && id in Groups(scene)[n] <==> id in scene && n == id.node
    ensures forall n :: n in Groups(scene) ==> Groups(scene)[n] != map[]
    ensures forall id :: id in scene ==> Groups(scene)[id.node][id] == scene[id]
    ensures Ungroup(Groups(scene)) == scene
  {
    var g := Groups(scene);
    forall id | id in scene
      ensures id.node in g && id in g[id.node] && g[id.node][id] == scene[id]
    {
    }
    forall n | n in g
      ensures g[n] != map[]
    {
      var id :| id in scene && id.node == n;
      assert id in g[n];
    }
    assert Ungroup(g).Keys == scene.Keys;
  }

  // One entry of the loop: create the node's group when it is missing, then add.
  function Insert<V>(groups: map<string, map<ID, V>>, id: ID, state: V): map<string, map<ID, V>> {
    var g := if id.node in groups then groups else groups[id.node := map[]];
    g[id.node := g[id.node][id := state]]
  }

  method GroupByNode(scene: Scene) returns (devicesByNode: map<string, Scene>)
    ensures devicesByNode == Groups(scene)
  {
    devicesByNode := map[];
    var todo := scene.Keys;
    ghost var done: Scene := map[];
    while todo != {}
      invariant todo <= scene.Keys
      invariant done.Keys == scene.Keys - todo
      invariant forall id :: id in done ==> done[id] == scene[id]
      invariant devicesByNode == Groups(done)
      decreases |todo|
    {
      var id :| id in todo;
      todo := todo - {id};
      InsertIsGroups(done, id, scene[id]);
      done := done[id := scene[id]];
      devicesByNode := Insert(devicesByNode, id, scene[id]);
    }
    assert done == scene;
  }

  lemma InsertIsGroups<V>(scene: map<ID, V>, id: ID, state: V)
    ensures Insert(Groups(scene), id, state) == Groups(scene[id := state])
  {
    var s := scene[id := state];
    var g := Groups(scene);
    NodesAdd(scene, id, state);
    assert id.node !in g ==> Group(scene, id.node) == map[];
    assert Group(s, id.node) == Group(scene, id.node)[id := state];
    forall n | n in Nodes(scene) && n != id.node
      ensures Group(s, n) == Group(scene, n)
    {
    }
  }

  lemma NodesAdd<V>(scene: map<ID, V>, id: ID, state: V)
    ensures Nodes(scene[id := state]) == Nodes(scene) + {id.node}
  {
    var s := scene[id := state];
    forall n | n in Nodes(scene)
      ensures n in Nodes(s)
    {
      var i :| i in scene && i.node == n;
      assert i in s;
    }
    assert id in s;
  }
}
