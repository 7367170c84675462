// One run of a rule's actions (logic/rule.go Run) and of a scheduled task
// (logic/task.go Run): which state-change messages leave, in what order, and what a
// cancelled run has left behind.
module ActionRun {
  import opened Sequences
  import opened Devices

  // An action is a duration to sleep or the name of a saved scene to restore.
  datatype Action = Sleep(duration: int) | Restore(scene: string)

  type Store = map<string, Scene>

  // One state-change message to a node.
  datatype Send = Send(node: string, devs: Scene)

  // ---- the messages of one scene --------------------------------------------

  function SentTo(block: seq<Send>): set<string> {
    set i | 0 <= i < |block| :: block[i].node
  }

  // One message for each of some nodes, in any order, with that node's devices.
  predicate Covers(block: seq<Send>, scene: Scene, nodes: set<string>) {
    && (forall i, j :: 0 <= i < j < |block| ==> block[i].node != block[j].node)
    && SentTo(block) == nodes
    && (forall i :: 0 <= i < |block| ==> block[i].devs == Group(scene, block[i].node))
  }

  predicate Delivers(block: seq<Send>, scene: Scene) {
    Covers(block, scene, Nodes(scene))
  }

  predicate OnlyIn(block: seq<Send>, i: nat, id: ID, state: State)
    requires i < |block|
  {
    && id in block[i].devs && block[i].devs[id] == state
    && (forall j :: 0 <= j < |block| && id in block[j].devs ==> j == i)
  }

  // Every device of the scene is in exactly one message, with its state, and there
  // are as many messages as there are distinct nodes.
  lemma DeliversEachOnce(block: seq<Send>, scene: Scene)
    requires Delivers(block, scene)
    ensures |block| == |Nodes(scene)|
    ensures forall id :: id in scene ==> exists i :: 0 <= i < |block| && OnlyIn(block, i, id, scene[id])
  {
    CountNodes(block);
    forall id | id in scene
      ensures exists i :: 0 <= i < |block| && OnlyIn(block, i, id, scene[id])
    {
      assert id.node in SentTo(block);
      var i :| 0 <= i < |block| && block[i].node == id.node;
      forall j | 0 <= j < |block| && id in block[j].devs
        ensures j == i
      {
      }
      assert OnlyIn(block, i, id, scene[id]);
    }
  }

  lemma {:induction false} CountNodes(block: seq<Send>)
    requires forall i, j :: 0 <= i < j < |block| ==> block[i].node != block[j].node
    ensures |block| == |SentTo(block)|
  {
    if block != [] {
      var t := block[1..];
      CountNodes(t);
      assert forall k :: 0 <= k < |t| ==> t[k].node != block[0].node by {
        assert forall k :: 0 <= k < |t| ==> t[k] == block[k + 1];
      }
      assert SentTo(block) == SentTo(t) + {block[0].node};
    }
  }

  lemma CoversOneMore(block: seq<Send>, scene: Scene, nodes: set<string>, node: string)
    requires Covers(block, scene, nodes) && node !in nodes
    ensures Covers(block + [Send(node, Group(scene, node))], scene, nodes + {node})
  {
    var b := block + [Send(node, Group(scene, node))];
    assert b[|block|].node == node;
    assert forall i :: 0 <= i < |block| ==> b[i] == block[i] && block[i].node in SentTo(block);
  }

  // The send loop over the grouped devices. A failing send is logged and the loop
  // goes on, so every group is sent once.
  method SendGroups(scene: Scene) returns (block: seq<Send>)
    ensures Delivers(block, scene)
  {
    var devicesByNode := GroupByNode(scene);
    block := [];
    var todo := devicesByNode.Keys;
    while todo != {}
      invariant todo <= Nodes(scene)
      invariant Covers(block, scene, Nodes(scene) - todo)
      decreases |todo|
    {
      var nodeID :| nodeID in todo;
      CoversOneMore(block, scene, Nodes(scene) - todo, nodeID);
      assert Nodes(scene) - todo + {nodeID} == Nodes(scene) - (todo - {nodeID});
      todo := todo - {nodeID};
      block := block + [Send(nodeID, devicesByNode[nodeID])];
    }
  }

  // ---- a run ----------------------------------------------------------------

  // What one action puts on the wire.
  predicate BlockOf(block: seq<Send>, action: Action, store: Store) {
    match action
    case Sleep(_) => block == []
    case Restore(s) => s in store && Delivers(block, store[s])
  }

  // A run between two actions: pc actions are behind it, cancelled is its context,
  // blocks what each finished action sent, triggered the destinations notified.
  datatype Run = Run(pc: nat, cancelled: bool, over: bool, blocks: seq<seq<Send>>, triggered: seq<string>)

  const FRESH := Run(0, false, false, [], [])

  // Whole actions only: the first pc actions have sent everything, in order, nothing
  // after them has sent anything; destinations are notified only after all actions.
  predicate WholeActions(run: Run, actions: seq<Action>, destinations: seq<string>, store: Store) {
    && |run.blocks| == run.pc <= |actions|
    && (forall i :: 0 <= i < run.pc ==> BlockOf(run.blocks[i], actions[i], store))
    && run.triggered == (if run.over && run.pc == |actions| then destinations else [])
    && (run.over ==> run.cancelled)
  }

  // How the environment resolves one action: whether a sleep whose context is
  // cancelled still sees its timer first, and the order of a scene's messages.
  datatype Choice = Choice(elapsed: bool, block: seq<Send>)

  predicate CanAct(run: Run, actions: seq<Action>, store: Store, c: Choice) {
    && !run.over && run.pc <= |actions|
    && (run.pc < |actions| && actions[run.pc].Restore? && actions[run.pc].scene in store
        ==> Delivers(c.block, store[actions[run.pc].scene]))
  }

  // One turn of the action loop; returning runs the deferred cancel.
  function Act(run: Run, actions: seq<Action>, destinations: seq<string>, store: Store, c: Choice): Run
    requires run.pc <= |actions|
  {
    if run.pc == |actions| then
      run.(over := true, cancelled := true, triggered := destinations)
    else
      match actions[run.pc]
      case Sleep(_) =>
        if run.cancelled && !c.elapsed then run.(over := true)
        else run.(pc := run.pc + 1, blocks := run.blocks + [[]])
      case Restore(s) =>
        if run.cancelled || s !in store then run.(over := true, cancelled := true)
        else run.(pc := run.pc + 1, blocks := run.blocks + [c.block])
  }

  lemma ActKeepsWhole(run: Run, actions: seq<Action>, destinations: seq<string>, store: Store, c: Choice)
    requires WholeActions(run, actions, destinations, store) && CanAct(run, actions, store, c)
    ensures WholeActions(Act(run, actions, destinations, store, c), actions, destinations, store)
    ensures run.blocks <= Act(run, actions, destinations, store, c).blocks
  {
  }

  // What one turn does to a run. Not cancelled, it goes on by one action at a sleep or a
  // stored scene, sending all of it; behind the last action it notifies and is over.
  lemma ActGoesOn(run: Run, actions: seq<Action>, destinations: seq<string>, store: Store, c: Choice)
    requires CanAct(run, actions, store, c) && !run.cancelled
    ensures var n := Act(run, actions, destinations, store, c);
      if run.pc == |actions| then n.over && n.triggered == destinations && n.blocks == run.blocks
      else if Missing(actions[run.pc], store) then
        n.over && n.pc == run.pc && n.blocks == run.blocks && n.triggered == run.triggered
      else
        && n.pc == run.pc + 1 && !n.over && !n.cancelled && n.triggered == run.triggered
        && exists block :: n.blocks == run.blocks + [block] && BlockOf(block, actions[run.pc], store)
  {
    var n := Act(run, actions, destinations, store, c);
    if run.pc < |actions| && !Missing(actions[run.pc], store) {
      var block: seq<Send> := if actions[run.pc].Sleep? then [] else c.block;
      assert n.blocks == run.blocks + [block] && BlockOf(block, actions[run.pc], store);
    }
  }

  // Cancelled, it sends nothing any more: it stops before a scene, and at a sleep unless
  // the timer happened to be first.
  lemma ActSilent(run: Run, actions: seq<Action>, destinations: seq<string>, store: Store, c: Choice)
    requires CanAct(run, actions, store, c) && run.cancelled
    ensures var n := Act(run, actions, destinations, store, c);
      && n.cancelled && Flatten(n.blocks) == Flatten(run.blocks)
      && (run.pc < |actions| && actions[run.pc].Restore? ==> n.over && n.blocks == run.blocks)
      && (run.pc < |actions| && actions[run.pc].Sleep? ==> n.over == !c.elapsed)
      && (run.pc < |actions| ==> n.triggered == run.triggered)
  {
    if run.pc < |actions| && actions[run.pc].Sleep? && c.elapsed {
      var nothing: seq<Send> := [];
      FlattenSnoc(run.blocks, nothing);
      assert Act(run, actions, destinations, store, c).blocks == run.blocks + [nothing];
      assert Flatten(run.blocks) + nothing == Flatten(run.blocks);
    }
  }

  // What the context looks like when the loop asks for it: at a sleep, which channel
  // the select took; at a scene, whether it was cancelled.
  datatype Signal = Proceed | Interrupted

  predicate Missing(action: Action, store: Store) {
    action.Restore? && action.scene !in store
  }

  // The first action that does not complete.
  function Reached(actions: seq<Action>, store: Store, env: seq<Signal>, i: nat): (k: nat)
    requires |env| == |actions| && i <= |actions|
    ensures i <= k <= |actions|
    ensures k < |actions| ==> env[k] == Interrupted || Missing(actions[k], store)
    ensures forall j :: i <= j < k ==> env[j] != Interrupted && !Missing(actions[j], store)
    decreases |actions| - i
  {
    if i == |actions| || env[i] == Interrupted || Missing(actions[i], store) then i
    else Reached(actions, store, env, i + 1)
  }

  // The complete sends of the first k actions, in order, and nothing else.
  ghost predicate SentFirst(sent: seq<Send>, actions: seq<Action>, store: Store, k: nat) {
    exists blocks :: Blocks(blocks, actions, store, k) && sent == Flatten(blocks)
  }

  ghost predicate Blocks(blocks: seq<seq<Send>>, actions: seq<Action>, store: Store, k: nat) {
    |blocks| == k <= |actions| && forall i :: 0 <= i < k ==> BlockOf(blocks[i], actions[i], store)
  }

  lemma SentNothing(actions: seq<Action>, store: Store)
    ensures SentFirst([], actions, store, 0)
  {
    assert Blocks([], actions, store, 0);
  }

  lemma SentOneMore(sent: seq<Send>, actions: seq<Action>, store: Store, k: nat, block: seq<Send>)
    requires SentFirst(sent, actions, store, k) && k < |actions| && BlockOf(block, actions[k], store)
    ensures SentFirst(sent + block, actions, store, k + 1)
  {
    var blocks :| Blocks(blocks, actions, store, k) && sent == Flatten(blocks);
    FlattenSnoc(blocks, block);
    assert Blocks(blocks + [block], actions, store, k + 1);
  }

  // What a run that is over has put on the wire is what SentFirst says.
  lemma RunSent(run: Run, actions: seq<Action>, destinations: seq<string>, store: Store)
    requires WholeActions(run, actions, destinations, store)
    ensures SentFirst(Flatten(run.blocks), actions, store, run.pc)
  {
    assert Blocks(run.blocks, actions, store, run.pc);
  }

  // The whole loop of Rule.Run.
  method Execute(actions: seq<Action>, destinations: seq<string>, store: Store, env: seq<Signal>)
    returns (sent: seq<Send>, triggered: seq<string>)
    requires |env| == |actions|
    ensures var k := Reached(actions, store, env, 0);
      SentFirst(sent, actions, store, k) && triggered == if k == |actions| then destinations else []
    ensures forall i :: 0 <= i < |actions| && env[i] == Interrupted ==> Reached(actions, store, env, 0) <= i
  {
    sent, triggered := [], [];
    SentNothing(actions, store);
    var k := 0;
    while k < |actions|
      invariant k <= |actions| && triggered == []
      invariant Reached(actions, store, env, 0) == Reached(actions, store, env, k)
      invariant SentFirst(sent, actions, store, k)
    {
      var block: seq<Send> := [];
      match actions[k] {
        case Sleep(duration) =>
          if env[k] == Interrupted {
            return;
          }
        case Restore(scene) =>
          if env[k] == Interrupted {
            return;
          }
          if scene !in store {
            return;
          }
          block := SendGroups(store[scene]);
      }
      SentOneMore(sent, actions, store, k, block);
      sent := sent + block;
      k := k + 1;
    }
    triggered := NotifyAll(destinations);
  }

  method NotifyAll(destinations: seq<string>) returns (triggered: seq<string>)
    ensures triggered == destinations
  {
    triggered := [];
    var i := 0;
    while i < |destinations|
      invariant i <= |destinations| && triggered == destinations[..i]
    {
      triggered := triggered + [destinations[i]];
      i := i + 1;
    }
  }

  // Blocks of the first actions begin blocks of the first m, when those name stored scenes.
  lemma {:induction false} PrefixOfUninterrupted(actions: seq<Action>, store: Store, blocks: seq<seq<Send>>, m: nat)
    returns (full: seq<seq<Send>>)
    requires |blocks| <= m && Blocks(blocks, actions, store, |blocks|)
    requires m <= |actions| && forall i :: 0 <= i < m ==> !Missing(actions[i], store)
    ensures Blocks(full, actions, store, m)
    ensures blocks <= full && Flatten(blocks) <= Flatten(full)
    decreases m - |blocks|
  {
    if |blocks| == m {
      full := blocks;
    } else {
      var block: seq<Send> := [];
      match actions[|blocks|] {
        case Sleep(_) =>
        case Restore(s) => block := SomeBlock(store[s], Nodes(store[s]));
      }
      full := PrefixOfUninterrupted(actions, store, blocks + [block], m);
      FlattenSnoc(blocks, block);
    }
  }

  // How far a run gets that nobody cancels: to the end, or to the first missing scene.
  function Uncancelled(actions: seq<Action>, store: Store): (m: nat)
    ensures m <= |actions| && (m < |actions| ==> Missing(actions[m], store))
    ensures forall i :: 0 <= i < m ==> !Missing(actions[i], store)
  {
    Reached(actions, store, seq(|actions|, _ => Proceed), 0)
  }

  // Whatever cancelled a run, it has sent a beginning of what some run sends that is not
  // cancelled.
  lemma SentPrefix(sent: seq<Send>, actions: seq<Action>, store: Store, k: nat) returns (full: seq<Send>)
    requires SentFirst(sent, actions, store, k)
    ensures var m := Uncancelled(actions, store);
      k <= m && SentFirst(full, actions, store, m) && sent <= full
  {
    var m := Uncancelled(actions, store);
    var blocks :| Blocks(blocks, actions, store, k) && sent == Flatten(blocks);
    assert forall i :: 0 <= i < k ==> BlockOf(blocks[i], actions[i], store) && !Missing(actions[i], store);
    var all := PrefixOfUninterrupted(actions, store, blocks, m);
    full := Flatten(all);
  }

  // And, missing scenes included, a beginning of what a run of all actions sends once the
  // store holds every scene.
  lemma SentPrefixOfAll(sent: seq<Send>, actions: seq<Action>, store: Store, k: nat, more: Store)
      returns (full: seq<Send>)
    requires SentFirst(sent, actions, store, k)
    requires forall s :: s in store ==> s in more && more[s] == store[s]
    requires forall i :: 0 <= i < |actions| && actions[i].Restore? ==> actions[i].scene in more
    ensures SentFirst(full, actions, more, |actions|) && sent <= full
  {
    var blocks :| Blocks(blocks, actions, store, k) && sent == Flatten(blocks);
    forall i | 0 <= i < k ensures BlockOf(blocks[i], actions[i], more) {
      assert BlockOf(blocks[i], actions[i], store);
    }
    var all := PrefixOfUninterrupted(actions, more, blocks, |actions|);
    full := Flatten(all);
  }

  lemma {:induction false} SomeBlock(scene: Scene, nodes: set<string>) returns (block: seq<Send>)
    ensures Covers(block, scene, nodes)
    decreases |nodes|
  {
    block := [];
    if nodes != {} {
      var n :| n in nodes;
      block := SomeBlock(scene, nodes - {n});
      CoversOneMore(block, scene, nodes - {n}, n);
      assert nodes - {n} + {n} == nodes;
      block := block + [Send(n, Group(scene, n))];
    }
  }

  // ---- scheduled tasks ------------------------------------------------------

  // A task restores scenes only, cannot be cancelled and notifies nobody.
  function TaskActions(scenes: seq<string>): seq<Action> {
    seq(|scenes|, i requires 0 <= i < |scenes| => Restore(scenes[i]))
  }

  // No expression, or the value of one (false when it fails to evaluate).
  datatype Condition = Unconditional | When(holds: bool)

  // Complete sends of the scenes before the first missing one; none at all when the
  // task is disabled or its condition does not hold.
  method RunTask(enabled: bool, condition: Condition, scenes: seq<string>, store: Store) returns (sent: seq<Send>)
    ensures SentFirst(sent, TaskActions(scenes), store,
      if !enabled || condition == When(false) then 0 else Present(scenes, store, 0))
  {
    sent := [];
    SentNothing(TaskActions(scenes), store);
    if !enabled {
      return;
    }
    if condition.When? && !condition.holds {
      return;
    }
    var i := 0;
    while i < |scenes|
      invariant i <= |scenes| && Present(scenes, store, 0) == Present(scenes, store, i)
      invariant SentFirst(sent, TaskActions(scenes), store, i)
    {
      if scenes[i] !in store {
        return;
      }
      var b := SendGroups(store[scenes[i]]);
      SentOneMore(sent, TaskActions(scenes), store, i, b);
      sent := sent + b;
      i := i + 1;
    }
  }

  // The first scene at or behind i that is missing.
  function Present(scenes: seq<string>, store: Store, i: nat): (k: nat)
    requires i <= |scenes|
    ensures i <= k <= |scenes| && (k < |scenes| ==> scenes[k] !in store)
    ensures forall j :: i <= j < k ==> scenes[j] in store
    decreases |scenes| - i
  {
    if i == |scenes| || scenes[i] !in store then i else Present(scenes, store, i + 1)
  }
}
