// The rule engine: all rules together, evaluated by the worker in the arbitrary
// order of a Go map and interleaved with timers and action runs (logic/logic.go).
// Every rule, seen alone, performs a run of RuleMachine.
module Logic {
  import opened Devices
  import opened Sequences
  import opened ActionRun
  import opened RuleMachine

  type DeviceStates = map<ID, State>

  // An expression that fails to evaluate reports its error and counts as false.
  datatype Answer = True | False | Error

  // What a compiled expression sees: the device states, and which rules are active.
  type Expression = (DeviceStates, map<string, bool>) -> Answer

  datatype RuleSpec = RuleSpec(enabled: bool, expression: Expression, cfg: Config)

  type Specs = map<string, RuleSpec>

  datatype World = World(now: int, devices: DeviceStates, rules: map<string, Rule>)

  function Actives(w: World): map<string, bool> {
    map u | u in w.rules :: w.rules[u].active
  }

  function Verdict(specs: Specs, w: World, u: string): bool
    requires u in specs
  {
    specs[u].expression(w.devices, Actives(w)).True?
  }

  // ---- the worker -----------------------------------------------------------

  function EvaluateOne(specs: Specs, w: World, u: string): World
    requires specs.Keys == w.rules.Keys && u in specs
  {
    if !specs[u].enabled then w
    else w.(rules := w.rules[u := Evaluate(specs[u].cfg, w.rules[u], w.now, Verdict(specs, w, u))])
  }

  function EvaluateAll(specs: Specs, w: World, order: seq<string>): (v: World)
    requires specs.Keys == w.rules.Keys && forall u :: u in order ==> u in specs
    ensures v.rules.Keys == specs.Keys && v.now == w.now && v.devices == w.devices
    decreases |order|
  {
    if order == [] then w else EvaluateAll(specs, EvaluateOne(specs, w, order[0]), order[1..])
  }

  // A device report merges into the stored state, or adds the device.
  function Merged(devices: DeviceStates, id: ID, state: State): DeviceStates {
    devices[id := if id in devices then devices[id] + state else state]
  }

  // ---- events and runs ------------------------------------------------------

  datatype Report = Nothing | Of(id: ID, state: Option<State>)

  function Heard(devices: DeviceStates, r: Report): DeviceStates {
    if r.Nothing? then devices else Merged(devices, r.id, Read(r.state))
  }

  datatype WorldEvent =
    | Pass(d: nat)
    | Work(report: Report, order: seq<string>)
    | Expires(u: string, i: nat)
    | Leaves(u: string, i: nat)
    | Acts(u: string, j: nat, choice: Choice)

  ghost predicate CanHappen(specs: Specs, w: World, e: WorldEvent)
    requires specs.Keys == w.rules.Keys
  {
    match e
    case Pass(_) => true
    case Work(_, order) => Visits(order, specs.Keys)
    case Expires(u, i) =>
      u in specs && Enabled(specs[u].cfg, Moment(w.now, w.rules[u]), Expiry(i, Verdict(specs, w, u)))
    case Leaves(u, i) => u in specs && Enabled(specs[u].cfg, Moment(w.now, w.rules[u]), Shutdown(i))
    case Acts(u, j, c) => u in specs && Enabled(specs[u].cfg, Moment(w.now, w.rules[u]), RuleMachine.Action(j, c))
  }

  function Happen(specs: Specs, w: World, e: WorldEvent): (v: World)
    requires specs.Keys == w.rules.Keys && CanHappen(specs, w, e)
    ensures v.rules.Keys == specs.Keys
  {
    match e
    case Pass(d) => w.(now := w.now + d)
    case Work(r, order) => EvaluateAll(specs, w.(devices := Heard(w.devices, r)), order)
    case Expires(u, i) => w.(rules := w.rules[u := Expire(w.rules[u], w.now, i, Verdict(specs, w, u))])
    case Leaves(u, i) => w.(rules := w.rules[u := Abandon(w.rules[u], i)])
    case Acts(u, j, c) => w.(rules := w.rules[u := Progress(specs[u].cfg, w.rules[u], j, c)])
  }

  function Initial(specs: Specs): World {
    World(0, map[], map u | u in specs :: IDLE)
  }

  ghost predicate PossibleRun(specs: Specs, es: seq<WorldEvent>)
    decreases |es|, 0
  {
    es == []
    || (PossibleRun(specs, es[..|es| - 1])
        && CanHappen(specs, Final(specs, es[..|es| - 1]), es[|es| - 1]))
  }

  ghost function Final(specs: Specs, es: seq<WorldEvent>): (w: World)
    requires PossibleRun(specs, es)
    ensures w.rules.Keys == specs.Keys
    decreases |es|, 1
  {
    if es == [] then Initial(specs)
    else Happen(specs, Final(specs, es[..|es| - 1]), es[|es| - 1])
  }

  // ---- one rule's view of a run ---------------------------------------------

  // What rule u sees when its turn comes in the evaluation loop.
  function VerdictIn(specs: Specs, w: World, order: seq<string>, u: string): bool
    requires specs.Keys == w.rules.Keys && u in order && forall v :: v in order ==> v in specs
    decreases |order|
  {
    if order[0] == u then Verdict(specs, w, u)
    else VerdictIn(specs, EvaluateOne(specs, w, order[0]), order[1..], u)
  }

  // The loop evaluates every enabled rule exactly once, and touches no other.
  lemma {:induction false} EvaluatedOnce(specs: Specs, w: World, order: seq<string>, u: string)
    requires specs.Keys == w.rules.Keys && u in specs
    requires forall v :: v in order ==> v in specs
    requires Distinct(order)
    ensures EvaluateAll(specs, w, order).rules[u] ==
      if u in order && specs[u].enabled
      then Evaluate(specs[u].cfg, w.rules[u], w.now, VerdictIn(specs, w, order, u))
      else w.rules[u]
    decreases |order|
  {
    if order != [] {
      DistinctTail(order);
      EvaluatedOnce(specs, EvaluateOne(specs, w, order[0]), order[1..], u);
    }
  }

  function Local(specs: Specs, w: World, e: WorldEvent, u: string): seq<Event>
    requires specs.Keys == w.rules.Keys && u in specs && CanHappen(specs, w, e)
  {
    match e
    case Pass(d) => [Tick(d)]
    case Work(r, order) =>
      if specs[u].enabled
      then [Evaluation(VerdictIn(specs, w.(devices := Heard(w.devices, r)), order, u))] else []
    case Expires(v, i) => if u == v then [Expiry(i, Verdict(specs, w, u))] else []
    case Leaves(v, i) => if u == v then [Shutdown(i)] else []
    case Acts(v, j, c) => if u == v then [RuleMachine.Action(j, c)] else []
  }

  ghost function View(specs: Specs, es: seq<WorldEvent>, u: string): seq<Event>
    requires u in specs && PossibleRun(specs, es)
  {
    if es == [] then []
    else View(specs, es[..|es| - 1], u) + Local(specs, Final(specs, es[..|es| - 1]), es[|es| - 1], u)
  }

  // In every interleaving each rule performs a run of its own machine.
  lemma {:induction false} ViewIsRun(specs: Specs, es: seq<WorldEvent>, u: string)
    requires u in specs && PossibleRun(specs, es)
    ensures Possible(specs[u].cfg, View(specs, es, u))
    ensures After(specs[u].cfg, View(specs, es, u)) == Moment(Final(specs, es).now, Final(specs, es).rules[u])
    decreases |es|
  {
    if es != [] {
      var f := es[..|es| - 1];
      ViewIsRun(specs, f, u);
      var w := Final(specs, f);
      LocalStep(specs, w, es[|es| - 1], u);
      var local := Local(specs, w, es[|es| - 1], u);
      var view := View(specs, f, u);
      if local == [] {
        assert view + local == view;
      } else {
        AfterSnoc(specs[u].cfg, view, local[0]);
      }
    }
  }

  lemma LocalStep(specs: Specs, w: World, e: WorldEvent, u: string)
    requires specs.Keys == w.rules.Keys && u in specs && CanHappen(specs, w, e)
    ensures var m := Moment(w.now, w.rules[u]);
            var v := Happen(specs, w, e);
            var n := Moment(v.now, v.rules[u]);
            var local := Local(specs, w, e, u);
            if local == [] then n == m
            else |local| == 1 && Enabled(specs[u].cfg, m, local[0]) && n == Step(specs[u].cfg, m, local[0])
  {
    if e.Work? {
      EvaluatedOnce(specs, w.(devices := Heard(w.devices, e.report)), e.order, u);
    }
  }

  // ---- expressions over device states alone -----------------------------------

  ghost predicate DeviceOnly(spec: RuleSpec) {
    forall d, a, b :: spec.expression(d, a) == spec.expression(d, b)
  }

  lemma {:induction false} SameVerdict(specs: Specs, w: World, order: seq<string>, u: string)
    requires specs.Keys == w.rules.Keys && u in order && forall v :: v in order ==> v in specs
    requires DeviceOnly(specs[u])
    ensures VerdictIn(specs, w, order, u) == specs[u].expression(w.devices, map[]).True?
    decreases |order|
  {
    if order[0] != u {
      SameVerdict(specs, EvaluateOne(specs, w, order[0]), order[1..], u);
    }
  }

  // While a timer waits, the worker's last verdict is still what the expression says:
  // devices change only together with an evaluation.
  lemma {:induction false} VerdictStands(specs: Specs, es: seq<WorldEvent>, u: string)
    requires u in specs && specs[u].enabled && DeviceOnly(specs[u]) && PossibleRun(specs, es)
    ensures var w := Final(specs, es);
            w.rules[u].timers != [] ==>
              LastWorker(w.rules[u].log) == specs[u].expression(w.devices, map[]).True?
    decreases |es|
  {
    if es != [] {
      var f := es[..|es| - 1];
      VerdictStands(specs, f, u);
      var w := Final(specs, f);
      VerdictStep(specs, w, es[|es| - 1], u);
    }
  }

  lemma VerdictStep(specs: Specs, w: World, e: WorldEvent, u: string)
    requires specs.Keys == w.rules.Keys && CanHappen(specs, w, e)
    requires u in specs && specs[u].enabled && DeviceOnly(specs[u])
    requires w.rules[u].timers != [] ==>
      LastWorker(w.rules[u].log) == specs[u].expression(w.devices, map[]).True?
    ensures var v := Happen(specs, w, e);
            v.rules[u].timers != [] ==>
              LastWorker(v.rules[u].log) == specs[u].expression(v.devices, map[]).True?
  {
    match e
    case Pass(_) =>
    case Work(r, order) =>
      var v := w.(devices := Heard(w.devices, r));
      EvaluatedOnce(specs, v, order, u);
      SameVerdict(specs, v, order, u);
      EvaluateLogs(specs[u].cfg, w.rules[u], w.now, VerdictIn(specs, v, order, u));
    case Expires(x, i) =>
      if x == u {
        ExpireLogs(w.rules[u], w.now, i, Verdict(specs, w, u));
      }
    case Leaves(_, _) =>
    case Acts(_, _, _) =>
  }

  lemma EvaluateLogs(cfg: Config, r: Rule, now: int, v: bool)
    ensures LastWorker(Evaluate(cfg, r, now, v).log) == v
  {
    var l := r.log + [Evaluated(now, v, true)];
    Snoc(r.log, Evaluated(now, v, true));
    Snoc(l, Began(now));
    Snoc(l, Started(now));
    Snoc(l, Cancelled(r.cancel));
  }

  lemma ExpireLogs(r: Rule, now: int, i: nat, v: bool)
    requires i < |r.timers|
    ensures LastWorker(Expire(r, now, i, v).log) == LastWorker(r.log)
  {
    Snoc(r.log, Evaluated(now, v, false));
    Snoc(r.log + [Evaluated(now, v, false)], Started(now));
  }

  lemma LocalConsistent(specs: Specs, w: World, e: WorldEvent, u: string)
    requires specs.Keys == w.rules.Keys && CanHappen(specs, w, e)
    requires u in specs && DeviceOnly(specs[u])
    requires w.rules[u].timers != [] ==>
      LastWorker(w.rules[u].log) == specs[u].expression(w.devices, map[]).True?
    ensures var local := Local(specs, w, e, u);
            local != [] && local[0].Expiry? ==> local[0].value == LastWorker(w.rules[u].log)
  {
  }

  lemma {:induction false} ViewConsistent(specs: Specs, es: seq<WorldEvent>, u: string)
    requires u in specs && specs[u].enabled && DeviceOnly(specs[u]) && PossibleRun(specs, es)
    ensures Possible(specs[u].cfg, View(specs, es, u)) && Consistent(specs[u].cfg, View(specs, es, u))
    decreases |es|
  {
    ViewIsRun(specs, es, u);
    if es != [] {
      var f := es[..|es| - 1];
      ViewConsistent(specs, f, u);
      ViewIsRun(specs, f, u);
      var w := Final(specs, f);
      LocalStep(specs, w, es[|es| - 1], u);
      VerdictStands(specs, f, u);
      LocalConsistent(specs, w, es[|es| - 1], u);
      var local := Local(specs, w, es[|es| - 1], u);
      var view := View(specs, f, u);
      if local == [] {
        assert view + local == view;
      } else {
        assert local == [local[0]];
        AfterSnoc(specs[u].cfg, view, local[0]);
      }
    }
  }

  // ---- the theorems about the whole engine --------------------------------------

  // Debounce safety over every interleaving of all rules, timers and runs: a rule
  // with a delay and an expression over devices starts its actions at log entry i
  // only if a timer began at least the delay earlier and no evaluation since was false.
  lemma EngineDebounces(specs: Specs, es: seq<WorldEvent>, u: string)
    requires u in specs && specs[u].enabled && DeviceOnly(specs[u]) && specs[u].cfg.hold != 0
    requires PossibleRun(specs, es)
    ensures var r := Final(specs, es).rules[u];
            && Steady(specs[u].cfg, Moment(Final(specs, es).now, r))
            && forall i :: 0 <= i < |r.log| && r.log[i].Started? ==>
                 exists b, t :: 0 <= b < i && t + specs[u].cfg.hold <= r.log[i].at && HeldFrom(r.log[..i], b, t)
  {
    ViewIsRun(specs, es, u);
    ViewConsistent(specs, es, u);
    var view := View(specs, es, u);
    DebounceSafety(specs[u].cfg, view);
    var r := Final(specs, es).rules[u];
    forall i | 0 <= i < |r.log| && r.log[i].Started?
      ensures exists b, t :: 0 <= b < i && t + specs[u].cfg.hold <= r.log[i].at && HeldFrom(r.log[..i], b, t)
    {
      StartsAreDebounced(specs[u].cfg, view, i);
    }
  }

  // Every rule in every reachable state, whatever its expression refers to.
  lemma EngineInvariants(specs: Specs, es: seq<WorldEvent>, u: string)
    requires u in specs && PossibleRun(specs, es)
    ensures var m := Moment(Final(specs, es).now, Final(specs, es).rules[u]);
            && Always(specs[u].cfg, m)
            && (specs[u].cfg.hold != 0 ==> Delayed(specs[u].cfg, m))
            && (specs[u].cfg.hold == 0 ==> Immediate(specs[u].cfg, m))
  {
    ViewIsRun(specs, es, u);
    EveryRun(specs[u].cfg, View(specs, es, u));
  }

  // With expressions over devices alone the order of the evaluation loop is immaterial.
  lemma OrderImmaterial(specs: Specs, w: World, one: seq<string>, two: seq<string>)
    requires specs.Keys == w.rules.Keys && Visits(one, specs.Keys) && Visits(two, specs.Keys)
    requires forall u :: u in specs ==> DeviceOnly(specs[u])
    ensures EvaluateAll(specs, w, one) == EvaluateAll(specs, w, two)
  {
    forall u | u in specs
      ensures EvaluateAll(specs, w, one).rules[u] == EvaluateAll(specs, w, two).rules[u]
    {
      EvaluatedOnce(specs, w, one, u);
      EvaluatedOnce(specs, w, two, u);
      SameVerdict(specs, w, one, u);
      SameVerdict(specs, w, two, u);
    }
    assert EvaluateAll(specs, w, one).rules == EvaluateAll(specs, w, two).rules;
  }

  // Any expression: an expiry that starts the actions is debounced exactly when the
  // rule is still pending at that moment.
  lemma EngineStartDebouncedIff(specs: Specs, es: seq<WorldEvent>, u: string, i: nat)
    requires u in specs && specs[u].cfg.hold != 0 && PossibleRun(specs, es)
    requires CanHappen(specs, Final(specs, es), Expires(u, i)) && Verdict(specs, Final(specs, es), u)
    ensures var w := Final(specs, es);
            var log := Happen(specs, w, Expires(u, i)).rules[u].log;
            log != [] && log[|log| - 1] == Started(w.now)
            && (Debounced(log, |log| - 1, specs[u].cfg.hold) <==> w.rules[u].pending)
  {
    ViewIsRun(specs, es, u);
    StartDebouncedIff(specs[u].cfg, View(specs, es, u), i);
  }

  // ---- what the engine knows of the devices -----------------------------------------

  // The reports of a run alone say what a key of a device should be: what the last one
  // naming it said.
  function Latest(es: seq<WorldEvent>, id: ID, k: string): Option<Value> {
    if es == [] then None
    else
      var e := es[|es| - 1];
      if e.Work? && e.report.Of? && e.report.id == id && e.report.state.Some? && k in e.report.state.value
      then Some(e.report.state.value[k])
      else Latest(es[..|es| - 1], id, k)
  }

  predicate Reported(es: seq<WorldEvent>, id: ID) {
    exists i :: 0 <= i < |es| && es[i].Work? && es[i].report.Of? && es[i].report.id == id
  }

  // A report overrides the keys it names and leaves all others, and all other devices.
  lemma ReportMerges(devices: DeviceStates, r: Report, id: ID, k: string)
    ensures var after := Heard(devices, r);
      && (id in after <==> id in devices || (r.Of? && r.id == id))
      && (id in after ==>
            var told := r.Of? && r.id == id && r.state.Some? && k in r.state.value;
            && (k in after[id] <==> told || (id in devices && k in devices[id]))
            && (told ==> after[id][k] == r.state.value[k])
            && (!told && k in after[id] ==> after[id][k] == devices[id][k]))
  {
  }

  function Stored(devices: DeviceStates, id: ID, k: string): Option<Value> {
    if id in devices && k in devices[id] then Some(devices[id][k]) else None
  }

  // After every run the engine's device states are the last-writer-wins merge of all reports.
  lemma {:induction false} DevicesMirrorReports(specs: Specs, es: seq<WorldEvent>, id: ID, k: string)
    requires PossibleRun(specs, es)
    ensures id in Final(specs, es).devices <==> Reported(es, id)
    ensures Stored(Final(specs, es).devices, id, k) == Latest(es, id, k)
    decreases |es|
  {
    if es != [] {
      var f, e := es[..|es| - 1], es[|es| - 1];
      DevicesMirrorReports(specs, f, id, k);
      DevicesStep(specs, Final(specs, f), e);
      MirrorStep(Final(specs, f).devices, e, f, id, k);
      assert f + [e] == es;
    }
  }

  lemma MirrorStep(devices: DeviceStates, e: WorldEvent, f: seq<WorldEvent>, id: ID, k: string)
    requires (id in devices <==> Reported(f, id)) && Stored(devices, id, k) == Latest(f, id, k)
    ensures var after := if e.Work? then Heard(devices, e.report) else devices;
      && (id in after <==> Reported(f + [e], id))
      && Stored(after, id, k) == Latest(f + [e], id, k)
  {
    if e.Work? {
      ReportMerges(devices, e.report, id, k);
    }
    ReportedSnoc(f, e, id);
    assert (f + [e])[..|f|] == f;
  }

  lemma DevicesStep(specs: Specs, w: World, e: WorldEvent)
    requires specs.Keys == w.rules.Keys && CanHappen(specs, w, e)
    ensures Happen(specs, w, e).devices == if e.Work? then Heard(w.devices, e.report) else w.devices
  {
  }

  lemma ReportedSnoc(f: seq<WorldEvent>, e: WorldEvent, id: ID)
    ensures Reported(f + [e], id) <==> Reported(f, id) || (e.Work? && e.report.Of? && e.report.id == id)
  {
    var es := f + [e];
    assert es[|f|] == e;
    assert forall i :: 0 <= i < |f| ==> es[i] == f[i];
  }

  // ---- an expression over other rules is not debounced --------------------------

  lemma RunSnoc(specs: Specs, es: seq<WorldEvent>, e: WorldEvent)
    requires PossibleRun(specs, es) && CanHappen(specs, Final(specs, es), e)
    ensures PossibleRun(specs, es + [e])
    ensures Final(specs, es + [e]) == Happen(specs, Final(specs, es), e)
  {
    assert (es + [e])[..|es|] == es;
  }

  const LAMP := ID("node", "lamp")

  const ONE := Config(1, [], [], map[])

  // "lit" follows a lamp, "follower" follows "lit"; both have a delay of one.
  function FollowerSpecs(): Specs {
    map["lit" := RuleSpec(true,
          (d: DeviceStates, a: map<string, bool>) =>
            if LAMP in d && "on" in d[LAMP] && d[LAMP]["on"] == Bool(true) then True else False, ONE),
        "follower" := RuleSpec(true,
          (d: DeviceStates, a: map<string, bool>) => if "lit" in a && a["lit"] then True else False, ONE)]
  }

  const ORDER: seq<string> := ["lit", "follower"]

  function Lamp(on: bool): WorldEvent {
    Work(Of(LAMP, Some(map["on" := Bool(on)])), ORDER)
  }

  predicate LampIs(w: World, on: bool) {
    LAMP in w.devices && "on" in w.devices[LAMP] && w.devices[LAMP]["on"] == Bool(on)
  }

  // The flags and timers of a rule, and what a worker evaluation makes of them.
  datatype Flags = Flags(active: bool, pending: bool, timers: seq<int>)

  function FlagsOf(r: Rule): Flags {
    Flags(r.active, r.pending, r.timers)
  }

  function NextFlags(f: Flags, now: int, v: bool): Flags {
    if v == f.pending then f
    else if v then Flags(f.active, true, (if f.timers == [] then [] else f.timers[1..]) + [now])
    else Flags(false, false, f.timers)
  }

  ghost predicate At(es: seq<WorldEvent>, now: int, lamp: bool, lit: Flags, follower: Flags) {
    && PossibleRun(FollowerSpecs(), es)
    && var w := Final(FollowerSpecs(), es);
    && w.now == now && LampIs(w, lamp)
    && FlagsOf(w.rules["lit"]) == lit && FlagsOf(w.rules["follower"]) == follower
  }

  // One worker step: the follower sees the flag that "lit" has just got.
  lemma LampStep(w: World, on: bool)
    requires w.rules.Keys == FollowerSpecs().Keys
    ensures CanHappen(FollowerSpecs(), w, Lamp(on))
    ensures var v := Happen(FollowerSpecs(), w, Lamp(on));
            var lit := NextFlags(FlagsOf(w.rules["lit"]), w.now, on);
            v.now == w.now && LampIs(v, on)
            && FlagsOf(v.rules["lit"]) == lit
            && FlagsOf(v.rules["follower"]) == NextFlags(FlagsOf(w.rules["follower"]), w.now, lit.active)
  {
    var x := w.(devices := Heard(w.devices, Of(LAMP, Some(map["on" := Bool(on)]))));
    assert LampIs(x, on);
    LitThenFollower(x, on);
  }

  lemma EvaluateFlags(r: Rule, now: int, v: bool)
    ensures FlagsOf(Evaluate(ONE, r, now, v)) == NextFlags(FlagsOf(r), now, v)
  {
  }

  lemma OrderVisits(w: World)
    requires w.rules.Keys == FollowerSpecs().Keys
    ensures Visits(ORDER, FollowerSpecs().Keys)
    ensures EvaluateAll(FollowerSpecs(), w, ORDER)
        == EvaluateOne(FollowerSpecs(), EvaluateOne(FollowerSpecs(), w, "lit"), "follower")
  {
    assert ORDER[0] == "lit" && ORDER[1] == "follower";
    assert ORDER[1..] == ["follower"] && ["follower"][1..] == [];
  }

  lemma LitTurn(x: World, on: bool)
    requires x.rules.Keys == FollowerSpecs().Keys && LampIs(x, on)
    ensures var y := EvaluateOne(FollowerSpecs(), x, "lit");
            FlagsOf(y.rules["lit"]) == NextFlags(FlagsOf(x.rules["lit"]), x.now, on)
            && y.rules["follower"] == x.rules["follower"]
  {
    EvaluateFlags(x.rules["lit"], x.now, on);
  }

  lemma FollowerTurn(y: World)
    requires y.rules.Keys == FollowerSpecs().Keys
    ensures var v := EvaluateOne(FollowerSpecs(), y, "follower");
            FlagsOf(v.rules["follower"]) == NextFlags(FlagsOf(y.rules["follower"]), y.now, y.rules["lit"].active)
            && v.rules["lit"] == y.rules["lit"]
  {
    EvaluateFlags(y.rules["follower"], y.now, y.rules["lit"].active);
  }

  lemma LitThenFollower(x: World, on: bool)
    requires x.rules.Keys == FollowerSpecs().Keys && LampIs(x, on)
    ensures Visits(ORDER, FollowerSpecs().Keys)
    ensures var v := EvaluateAll(FollowerSpecs(), x, ORDER);
            var lit := NextFlags(FlagsOf(x.rules["lit"]), x.now, on);
            FlagsOf(v.rules["lit"]) == lit
            && FlagsOf(v.rules["follower"]) == NextFlags(FlagsOf(x.rules["follower"]), x.now, lit.active)
  {
    OrderVisits(x);
    var y := EvaluateOne(FollowerSpecs(), x, "lit");
    LitTurn(x, on);
    FollowerTurn(y);
  }

  lemma LampTurns(es: seq<WorldEvent>, on: bool, now: int, lamp: bool, lit: Flags, follower: Flags)
    returns (fs: seq<WorldEvent>)
    requires At(es, now, lamp, lit, follower)
    ensures At(fs, now, on, NextFlags(lit, now, on), NextFlags(follower, now, NextFlags(lit, now, on).active))
  {
    LampStep(Final(FollowerSpecs(), es), on);
    RunSnoc(FollowerSpecs(), es, Lamp(on));
    fs := es + [Lamp(on)];
  }

  // One time unit later the timer of "lit" fires; the follower is not looked at.
  lemma LitExpires(es: seq<WorldEvent>, now: int, follower: Flags) returns (fs: seq<WorldEvent>)
    requires At(es, now, true, Flags(false, true, [now]), follower)
    ensures At(fs, now + 1, true, Flags(true, true, []), follower)
  {
    RunSnoc(FollowerSpecs(), es, Pass(1));
    fs := es + [Pass(1)];
    RunSnoc(FollowerSpecs(), fs, Expires("lit", 0));
    fs := fs + [Expires("lit", 0)];
  }

  // The lamp goes on, off and on again. "follower" falls with "lit", but by the time
  // its old timer fires "lit" is active again without the worker having looked, and
  // the actions start although the condition was false in between.
  lemma FollowerNotDebounced() returns (es: seq<WorldEvent>)
    ensures PossibleRun(FollowerSpecs(), es)
    ensures var w := Final(FollowerSpecs(), es);
            CanHappen(FollowerSpecs(), w, Expires("follower", 0))
            && var log := Happen(FollowerSpecs(), w, Expires("follower", 0)).rules["follower"].log;
               log != [] && log[|log| - 1].Started? && !Debounced(log, |log| - 1, 1)
  {
    es := FollowerFell();
    FollowerStarts(es);
  }

  // The condition of "follower" has fallen and "lit" is active again.
  lemma FollowerFell() returns (es: seq<WorldEvent>)
    ensures At(es, 2, true, Flags(true, true, []), Flags(false, false, [1]))
  {
    var idle := Flags(false, false, []);
    es := LampFirst();
    es := LitExpires(es, 0, idle);
    es := LampTurns(es, true, 1, true, Flags(true, true, []), idle);
    es := LampTurns(es, false, 1, true, Flags(true, true, []), Flags(false, true, [1]));
    es := LampTurns(es, true, 1, false, idle, Flags(false, false, [1]));
    es := LitExpires(es, 1, Flags(false, false, [1]));
  }

  lemma FollowerStarts(es: seq<WorldEvent>)
    requires At(es, 2, true, Flags(true, true, []), Flags(false, false, [1]))
    ensures var w := Final(FollowerSpecs(), es);
            CanHappen(FollowerSpecs(), w, Expires("follower", 0))
            && var log := Happen(FollowerSpecs(), w, Expires("follower", 0)).rules["follower"].log;
               log != [] && log[|log| - 1].Started? && !Debounced(log, |log| - 1, 1)
  {
    EngineStartDebouncedIff(FollowerSpecs(), es, "follower", 0);
  }

  lemma LampFirst() returns (es: seq<WorldEvent>)
    ensures At(es, 0, true, Flags(false, true, [0]), Flags(false, false, []))
  {
    LampStep(Final(FollowerSpecs(), []), true);
    RunSnoc(FollowerSpecs(), [], Lamp(true));
    es := [] + [Lamp(true)];
  }
}
