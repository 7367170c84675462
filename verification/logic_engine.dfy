// The engine as it runs: rule objects whose flags, timers and runs are changed in
// place, and the worker's loop over the map of rules (logic/logic.go, logic/rule.go).
// Every method does what the step functions of RuleMachine and Logic say.
module LogicEngine {
  import opened Devices
  import opened ActionRun
  import opened Sequences
  import RuleMachine
  import Logic
  import CancelledRuns

  class Rule {
    const uuid: string
    const spec: Logic.RuleSpec
    var active: bool
    var pending: bool
    // Goroutines: waiting timers by the time they began, and action runs.
    var timers: seq<int>
    var runs: seq<Run>
    // The run whose cancel function is stored; -1 for none.
    var cancel: int
    // The flags as last reported to the server, and what has happened so far.
    ghost var shown: RuleMachine.Shown
    ghost var log: seq<RuleMachine.Entry>

    ghost function Value(): RuleMachine.Rule
      reads this
    {
      RuleMachine.Rule(active, pending, shown, timers, runs, cancel, log)
    }

    constructor (uuid: string, spec: Logic.RuleSpec)
      ensures this.uuid == uuid && this.spec == spec && Value() == RuleMachine.IDLE
    {
      this.uuid, this.spec := uuid, spec;
      active, pending, timers, runs, cancel := false, false, [], [], -1;
      shown, log := RuleMachine.Shown(false, false), [];
    }

    // What every run of the engine keeps of a rule.
    ghost predicate Kept()
      reads this
    {
      KeptValue(spec, Value())
    }

    // Since an action run of rule u was cancelled, it has sent nothing.
    ghost predicate Silent(specs: Logic.Specs, es: seq<Logic.WorldEvent>, u: string)
      requires u in specs && Logic.PossibleRun(specs, es)
      reads this
    {
      SilentValue(specs, es, u, Value())
    }

    ghost method Note(e: RuleMachine.Entry)
      modifies this`log
      ensures Value() == RuleMachine.Note(old(Value()), e)
    {
      log := log + [e];
    }

    method Stop()
      modifies this`timers
      ensures Value() == RuleMachine.Stop(old(Value()))
    {
      if timers != [] {
        timers := timers[1..];
      }
    }

    method Cancel()
      modifies this
      ensures Value() == RuleMachine.Cancel(old(Value()))
    {
      if 0 <= cancel < |runs| {
        Note(RuleMachine.Cancelled(cancel));
        runs := runs[cancel := runs[cancel].(cancelled := true)];
      }
    }

    // go rule.Run(...)
    method Start(now: int)
      modifies this
      ensures Value() == RuleMachine.Start(old(Value()), now)
    {
      Note(RuleMachine.Started(now));
      cancel := |runs|;
      runs := runs + [FRESH];
    }

    // One action of run j.
    method Progress(j: nat, c: Choice)
      requires j < |runs| && runs[j].pc <= |spec.cfg.actions|
      modifies this`runs
      ensures Value() == RuleMachine.Progress(spec.cfg, old(Value()), j, c)
    {
      runs := runs[j := Act(runs[j], spec.cfg.actions, spec.cfg.destinations, spec.cfg.store, c)];
    }

    method RemoveTimer(i: nat)
      requires i < |timers|
      modifies this`timers
      ensures Value() == RuleMachine.Abandon(old(Value()), i)
    {
      timers := timers[..i] + timers[i + 1..];
    }
  }

  class Engine {
    var now: int
    // None: the stored device has a nil state.
    var devices: map<ID, Option<State>>
    const rules: map<string, Rule>

    constructor (rules: map<string, Rule>)
      ensures this.rules == rules && now == 0 && devices == map[]
    {
      this.rules, now, devices := rules, 0, map[];
    }

    // One object per key.
    ghost predicate Valid() {
      forall u, v :: u in rules && v in rules && u != v ==> rules[u] != rules[v]
    }

    ghost function Specs(): Logic.Specs {
      map u | u in rules :: rules[u].spec
    }

    ghost function World(): (w: Logic.World)
      reads this, rules.Values
      ensures w.rules.Keys == rules.Keys
    {
      Logic.World(now, States(), map u | u in rules :: rules[u].Value())
    }

    function States(): Logic.DeviceStates
      reads this`devices
    {
      map id | id in devices :: Read(devices[id])
    }

    twostate lemma OneRuleChanged(u: string)
      requires u in rules && now == old(now) && devices == old(devices)
      requires forall v :: v in rules && v != u ==> rules[v].Value() == old(rules[v].Value())
      ensures World() == old(World()).(rules := old(World()).rules[u := rules[u].Value()])
    {
      assert World().rules == old(World()).rules[u := rules[u].Value()];
    }

    // The snapshot of active flags an evaluation is given.
    method Actives() returns (m: map<string, bool>)
      ensures m == Logic.Actives(World())
      ensures m.Keys == rules.Keys && forall u :: u in rules ==> m[u] == rules[u].active
    {
      m := map[];
      var todo := rules.Keys;
      while todo != {}
        invariant todo <= rules.Keys
        invariant m.Keys == rules.Keys - todo
        invariant forall u :: u in m ==> m[u] == rules[u].active
        decreases |todo|
      {
        var u :| u in todo;
        todo := todo - {u};
        m := m[u := rules[u].active];
      }
    }

    method EvaluateRule(u: string) returns (result: bool)
      requires u in rules
      ensures result == Logic.Verdict(Specs(), World(), u)
      ensures result <==>
        rules[u].spec.expression(States(), map v | v in rules :: rules[v].active) == Logic.True
    {
      var m := Actives();
      assert m == map v | v in rules :: rules[v].active;
      var answer := rules[u].spec.expression(States(), m);
      match answer {
        case Error => result := false;
        case True => result := true;
        case False => result := false;
      }
    }

    method RunFor(rule: Rule, evaluation: bool)
      modifies rule
      ensures rule.Value() == RuleMachine.RunFor(old(rule.Value()), now, evaluation)
    {
      if evaluation == rule.pending {
        return;
      }
      rule.pending := evaluation;
      if evaluation {
        rule.Stop();
        rule.Note(RuleMachine.Began(now));
        rule.timers := rule.timers + [now];
        rule.shown := rule.shown.(pending := true);
        return;
      }
      rule.shown := RuleMachine.Shown(false, false);
      rule.active := false;
    }

    method RunNow(rule: Rule, evaluation: bool)
      modifies rule
      ensures rule.Value() == RuleMachine.RunNow(old(rule.Value()), now, evaluation)
    {
      if evaluation != rule.active {
        rule.shown := RuleMachine.Shown(false, evaluation);
        rule.active := evaluation;
        if evaluation {
          rule.Start(now);
        } else {
          rule.Cancel();
        }
      }
    }

    // One turn of the evaluation loop.
    method EvaluateOne(u: string)
      requires Valid() && u in rules
      modifies rules[u]
      ensures World() == Logic.EvaluateOne(Specs(), old(World()), u)
    {
      var rule := rules[u];
      if !rule.spec.enabled {
        return;
      }
      var evaluation := EvaluateRule(u);
      Dispatch(rule, evaluation);
      OneRuleChanged(u);
    }

    method Dispatch(rule: Rule, evaluation: bool)
      modifies rule
      ensures rule.Value() == RuleMachine.Evaluate(rule.spec.cfg, old(rule.Value()), now, evaluation)
    {
      rule.Note(RuleMachine.Evaluated(now, evaluation, true));
      if rule.spec.cfg.hold == 0 {
        RunNow(rule, evaluation);
      } else {
        RunFor(rule, evaluation);
      }
    }

    // The loop over the rules, in whatever order the map yields them.
    method EvaluateRules() returns (ghost order: seq<string>)
      requires Valid()
      modifies rules.Values
      ensures Visits(order, rules.Keys)
      ensures World() == Logic.EvaluateAll(Specs(), old(World()), order)
    {
      order := [];
      var todo := rules.Keys;
      NoneLeft(rules.Keys);
      while todo != {}
        invariant todo <= rules.Keys
        invariant Evaluated(old(World()), World(), order, rules.Keys - todo)
        decreases |todo|
      {
        var u :| u in todo;
        EvaluateNext(old(World()), order, rules.Keys - todo, u);
        OneFewer(rules.Keys, todo, u);
        todo := todo - {u};
        order := order + [u];
      }
    }

    method EvaluateNext(ghost w: Logic.World, ghost order: seq<string>, ghost done: set<string>, u: string)
      requires Valid() && u in rules && u !in done && Evaluated(w, World(), order, done)
      modifies rules[u]
      ensures Evaluated(w, World(), order + [u], done + {u})
    {
      EvaluatedOneMore(w, World(), order, done, u);
      EvaluateOne(u);
    }

    // w has become v by evaluating the rules of order, those of done.
    ghost predicate Evaluated(w: Logic.World, v: Logic.World, order: seq<string>, done: set<string>) {
      && w.rules.Keys == v.rules.Keys == rules.Keys
      && done <= rules.Keys && Visits(order, done)
      && v == Logic.EvaluateAll(Specs(), w, order)
    }

    lemma EvaluatedOneMore(w: Logic.World, v: Logic.World, order: seq<string>, done: set<string>, u: string)
      requires Evaluated(w, v, order, done) && u in rules && u !in done
      ensures Evaluated(w, Logic.EvaluateOne(Specs(), v, u), order + [u], done + {u})
    {
      EvaluateSnoc(Specs(), w, order, u);
      VisitsSnoc(order, done, u);
    }

    // A device report, merged into the stored device by way of the difference. Merging
    // into a nil state panics.
    method UpdateDevice(id: ID, state: Option<State>) returns (panicked: bool)
      modifies this`devices
      ensures panicked <==> Panics(old(devices), id, state)
      ensures panicked <==> id in old(devices) && old(devices)[id] == None && state != None && state != Some(map[])
      ensures panicked ==> devices == old(devices)
      ensures !panicked ==> States() == Logic.Merged(old(States()), id, Read(state))
      ensures !panicked ==> devices.Keys == old(devices).Keys + {id}
      ensures !panicked ==>
        Read(devices[id]) == (if id in old(devices) then Read(old(devices)[id]) else map[]) + Read(state)
      ensures forall other :: other in old(devices) && other != id ==>
        other in devices && devices[other] == old(devices)[other]
      ensures Whole(old(devices)) && state.Some? ==> Whole(devices)
    {
      panicked := false;
      if id in devices {
        var diff := Diff(Read(devices[id]), Read(state));
        if diff != map[] {
          if devices[id] == None {
            return true;
          }
          var merged := Merge(Read(devices[id]), diff);
          devices := devices[id := Some(merged)];
        }
        return;
      }
      devices := devices[id := state];
    }

    // One message taken from the worker's channel.
    method Work(report: Logic.Report) returns (panicked: bool, ghost order: seq<string>)
      requires Valid()
      modifies this, rules.Values
      ensures panicked <==> report.Of? && Panics(old(devices), report.id, report.state)
      ensures panicked ==> World() == old(World())
      ensures Whole(old(devices)) && (report.Of? ==> report.state.Some?) ==> Whole(devices)
      ensures !panicked ==> Logic.CanHappen(Specs(), old(World()), Logic.Work(report, order))
      ensures !panicked ==> World() == Logic.Happen(Specs(), old(World()), Logic.Work(report, order))
    {
      panicked := false;
      order := [];
      match report {
        case Nothing =>
        case Of(id, state) =>
          panicked := UpdateDevice(id, state);
          if panicked {
            return;
          }
      }
      assert World() == old(World()).(devices := Logic.Heard(old(States()), report));
      order := EvaluateRules();
    }

    // A timer fires: the rule is evaluated again before it becomes active.
    method Expires(u: string, i: nat)
      requires Valid() && u in rules
      requires i < |rules[u].timers| && rules[u].timers[i] + rules[u].spec.cfg.hold <= now
      modifies rules[u]
      ensures Logic.CanHappen(Specs(), old(World()), Logic.Expires(u, i))
      ensures World() == Logic.Happen(Specs(), old(World()), Logic.Expires(u, i))
    {
      var rule := rules[u];
      var evaluation := EvaluateRule(u);
      Fire(rule, i, evaluation);
      OneRuleChanged(u);
    }

    // A timer leaves because the server shuts down.
    method Leaves(u: string, i: nat)
      requires Valid() && u in rules && i < |rules[u].timers|
      modifies rules[u]
      ensures Logic.CanHappen(Specs(), old(World()), Logic.Leaves(u, i))
      ensures World() == Logic.Happen(Specs(), old(World()), Logic.Leaves(u, i))
    {
      rules[u].RemoveTimer(i);
      OneRuleChanged(u);
    }

    // One action of one run.
    method Acts(u: string, j: nat, c: Choice)
      requires Valid() && u in rules && j < |rules[u].runs|
      requires CanAct(rules[u].runs[j], rules[u].spec.cfg.actions, rules[u].spec.cfg.store, c)
      modifies rules[u]
      ensures Logic.CanHappen(Specs(), old(World()), Logic.Acts(u, j, c))
      ensures World() == Logic.Happen(Specs(), old(World()), Logic.Acts(u, j, c))
    {
      rules[u].Progress(j, c);
      OneRuleChanged(u);
    }

    method Fire(rule: Rule, i: nat, evaluation: bool)
      requires i < |rule.timers|
      modifies rule
      ensures rule.Value() == RuleMachine.Expire(old(rule.Value()), now, i, evaluation)
    {
      rule.RemoveTimer(i);
      rule.Note(RuleMachine.Evaluated(now, evaluation, false));
      if evaluation {
        rule.shown := RuleMachine.Shown(false, true);
        rule.active := true;
        rule.Start(now);
      }
    }

    // ---- whole runs -------------------------------------------------------------

    // One input; what cannot happen now is ignored. e: the step of the model it was.
    method Handle(input: Input) returns (panicked: bool, ghost e: Option<Logic.WorldEvent>)
      requires Valid()
      modifies this, rules.Values
      ensures panicked ==>
        input.Reports? && input.report.Of? && Panics(old(devices), input.report.id, input.report.state)
      ensures Whole(old(devices)) && HasState(input) ==> !panicked && Whole(devices)
      ensures match e
        case None => World() == old(World())
        case Some(x) => Logic.CanHappen(Specs(), old(World()), x) && World() == Logic.Happen(Specs(), old(World()), x)
    {
      panicked, e := false, None;
      match input {
        case Passes(d) =>
          now := now + d;
          e := Some(Logic.Pass(d));
        case Reports(report) =>
          ghost var order;
          panicked, order := Work(report);
          if !panicked {
            e := Some(Logic.Work(report, order));
          }
        case Fires(u, i) =>
          if u in rules && i < |rules[u].timers| && rules[u].timers[i] + rules[u].spec.cfg.hold <= now {
            Expires(u, i);
            e := Some(Logic.Expires(u, i));
          }
        case Quits(u, i) =>
          if u in rules && i < |rules[u].timers| {
            Leaves(u, i);
            e := Some(Logic.Leaves(u, i));
          }
        case Proceeds(u, j, c) =>
          if u in rules && j < |rules[u].runs|
            && CanAct(rules[u].runs[j], rules[u].spec.cfg.actions, rules[u].spec.cfg.store, c) {
            Acts(u, j, c);
            e := Some(Logic.Acts(u, j, c));
          }
      }
    }

    // Any inputs in any order, up to a panic: the objects perform a run of the model, so
    // every rule object keeps what is proved of every run.
    method Run(inputs: seq<Input>) returns (panicked: bool, ghost es: seq<Logic.WorldEvent>)
      requires Valid() && World() == Logic.Initial(Specs())
      modifies this, rules.Values
      ensures Logic.PossibleRun(Specs(), es) && World() == Logic.Final(Specs(), es)
      ensures forall u :: u in rules ==> rules[u].Kept() && rules[u].Silent(Specs(), es, u)
      ensures (forall n :: 0 <= n < |inputs| ==> HasState(inputs[n])) ==> !panicked
    {
      panicked, es := false, [];
      assert devices == map[] by {
        assert forall id :: id in devices ==> id in States();
      }
      var n := 0;
      while n < |inputs| && !panicked
        invariant n <= |inputs|
        invariant Logic.PossibleRun(Specs(), es) && World() == Logic.Final(Specs(), es)
        invariant (forall k :: 0 <= k < |inputs| ==> HasState(inputs[k])) ==> !panicked && Whole(devices)
      {
        ghost var e;
        panicked, e := Handle(inputs[n]);
        if e.Some? {
          Logic.RunSnoc(Specs(), es, e.value);
          es := es + [e.value];
        }
        n := n + 1;
      }
      forall u | u in rules ensures rules[u].Kept() && rules[u].Silent(Specs(), es, u) {
        ValueKept(Specs(), es, u);
        ValueSilent(Specs(), es, u);
        assert World().rules[u] == rules[u].Value();
      }
    }
  }

  // What reaches the engine from outside: time, device reports, timers, action runs.
  datatype Input =
    | Passes(d: nat)
    | Reports(report: Logic.Report)
    | Fires(u: string, i: nat)
    | Quits(u: string, i: nat)
    | Proceeds(u: string, j: nat, choice: Choice)

  predicate HasState(input: Input) {
    input.Reports? && input.report.Of? ==> input.report.state.Some?
  }

  // No stored state is nil.
  predicate Whole(devices: map<ID, Option<State>>) {
    forall id :: id in devices ==> devices[id].Some?
  }

  // Before every start a timer began the delay earlier, and no evaluation since was false.
  ghost predicate AllDebounced(log: seq<RuleMachine.Entry>, hold: int) {
    forall i :: 0 <= i < |log| && log[i].Started? ==>
      exists b, t :: 0 <= b < i && t + hold <= log[i].at && RuleMachine.HeldFrom(log[..i], b, t)
  }

  ghost predicate KeptValue(spec: Logic.RuleSpec, r: RuleMachine.Rule) {
    && (spec.cfg.hold == 0 ==> r.active == RuleMachine.LastWorker(r.log) && RuleMachine.OneRun(r))
    && (spec.cfg.hold != 0 ==> |r.timers| <= 1 && r.pending == RuleMachine.LastWorker(r.log))
    && (spec.cfg.hold != 0 && spec.enabled && Logic.DeviceOnly(spec) ==>
          (r.active ==> r.pending) && AllDebounced(r.log, spec.cfg.hold))
  }

  lemma ValueKept(specs: Logic.Specs, es: seq<Logic.WorldEvent>, u: string)
    requires u in specs && Logic.PossibleRun(specs, es)
    ensures KeptValue(specs[u], Logic.Final(specs, es).rules[u])
  {
    Logic.EngineInvariants(specs, es, u);
    if specs[u].cfg.hold != 0 && specs[u].enabled && Logic.DeviceOnly(specs[u]) {
      Logic.EngineDebounces(specs, es, u);
    }
  }

  ghost predicate SilentValue(specs: Logic.Specs, es: seq<Logic.WorldEvent>, u: string, r: RuleMachine.Rule)
    requires u in specs && Logic.PossibleRun(specs, es)
  {
    forall k: nat, j: nat | k <= |es| && Logic.PossibleRun(specs, es[..k]) ::
      SilentSince(Logic.Final(specs, es[..k]).rules[u], r, j)
  }

  ghost predicate SilentSince(before: RuleMachine.Rule, now: RuleMachine.Rule, j: nat) {
    j < |before.runs| && before.runs[j].cancelled ==>
      && j < |now.runs| && now.runs[j].cancelled
      && Flatten(now.runs[j].blocks) == Flatten(before.runs[j].blocks)
  }

  lemma ValueSilent(specs: Logic.Specs, es: seq<Logic.WorldEvent>, u: string)
    requires u in specs && Logic.PossibleRun(specs, es)
    ensures SilentValue(specs, es, u, Logic.Final(specs, es).rules[u])
  {
    forall k: nat, j: nat | k <= |es| && Logic.PossibleRun(specs, es[..k])
      ensures SilentSince(Logic.Final(specs, es[..k]).rules[u], Logic.Final(specs, es).rules[u], j)
    {
      var before := Logic.Final(specs, es[..k]).rules[u];
      if j < |before.runs| && before.runs[j].cancelled {
        CancelledRuns.EngineSilences(specs, es, k, u, j);
      }
    }
  }

  // Assigning into the nil state of a stored device.
  predicate Panics(devices: map<ID, Option<State>>, id: ID, state: Option<State>) {
    id in devices && devices[id] == None && Read(state) != map[]
  }

  lemma {:induction false} EvaluateSnoc(specs: Logic.Specs, w: Logic.World, order: seq<string>, u: string)
    requires specs.Keys == w.rules.Keys && u in specs && forall v :: v in order ==> v in specs
    ensures Logic.EvaluateAll(specs, w, order + [u])
      == Logic.EvaluateOne(specs, Logic.EvaluateAll(specs, w, order), u)
    decreases |order|
  {
    if order == [] {
      assert [u][1..] == [];
      assert order + [u] == [u];
    } else {
      assert (order + [u])[1..] == order[1..] + [u];
      EvaluateSnoc(specs, Logic.EvaluateOne(specs, w, order[0]), order[1..], u);
    }
  }
}
