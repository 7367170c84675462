// What cancelling means over whole runs of the rule engine (logic/rule.go, logic/logic.go):
// a cancelled action run never sends anything again.
module CancelledRuns {
  import opened Sequences
  import opened ActionRun
  import opened RuleMachine
  import Logic

  // Everything run j has sent so far.
  function SentBy(r: Rule, j: nat): seq<Send>
    requires j < |r.runs|
  {
    Flatten(r.runs[j].blocks)
  }

  // One step leaves a cancelled run cancelled, and adds nothing to what it has sent.
  lemma StepSilent(cfg: Config, m: Moment, e: Event, j: nat)
    requires Enabled(cfg, m, e) && j < |m.rule.runs| && m.rule.runs[j].cancelled
    ensures var n := Step(cfg, m, e).rule;
      j < |n.runs| && n.runs[j].cancelled && SentBy(n, j) == SentBy(m.rule, j)
  {
    if e.Action? && e.j == j {
      ActSilent(m.rule.runs[j], cfg.actions, cfg.destinations, cfg.store, e.choice);
    }
  }

  // Steps other than a run's own leave what it has sent and how far it is.
  lemma StepOthers(cfg: Config, m: Moment, e: Event, j: nat)
    requires Enabled(cfg, m, e) && j < |m.rule.runs| && !(e.Action? && e.j == j)
    ensures var n := Step(cfg, m, e).rule;
      j < |n.runs| && n.runs[j].blocks == m.rule.runs[j].blocks && n.runs[j].pc == m.rule.runs[j].pc
      && n.runs[j].over == m.rule.runs[j].over && n.runs[j].triggered == m.rule.runs[j].triggered
  {
  }

  // An uncancelled run before a sleep or a stored scene goes on by that action.
  lemma StepGoesOn(cfg: Config, m: Moment, j: nat, c: Choice)
    requires Enabled(cfg, m, RuleMachine.Action(j, c)) && !m.rule.runs[j].cancelled
    requires m.rule.runs[j].pc < |cfg.actions| && !Missing(cfg.actions[m.rule.runs[j].pc], cfg.store)
    ensures var n, pc := Step(cfg, m, RuleMachine.Action(j, c)).rule, m.rule.runs[j].pc;
      && j < |n.runs| && n.runs[j].pc == pc + 1 && !n.runs[j].over && !n.runs[j].cancelled
      && exists block :: BlockOf(block, cfg.actions[pc], cfg.store) && SentBy(n, j) == SentBy(m.rule, j) + block
  {
    var run := m.rule.runs[j];
    ActGoesOn(run, cfg.actions, cfg.destinations, cfg.store, c);
    var n := Act(run, cfg.actions, cfg.destinations, cfg.store, c);
    var block :| n.blocks == run.blocks + [block] && BlockOf(block, cfg.actions[run.pc], cfg.store);
    FlattenSnoc(run.blocks, block);
  }

  lemma {:induction false} PossiblePrefix(cfg: Config, es: seq<Event>, fs: seq<Event>)
    requires Possible(cfg, es + fs)
    ensures Possible(cfg, es)
    decreases |fs|
  {
    if fs == [] {
      assert es + fs == es;
    } else {
      assert (es + fs)[..|es + fs| - 1] == es + fs[..|fs| - 1];
      PossiblePrefix(cfg, es, fs[..|fs| - 1]);
    }
  }

  // Whatever happens after a run was cancelled, it has sent what it had sent then.
  lemma {:induction false} CancelledSilent(cfg: Config, es: seq<Event>, fs: seq<Event>, j: nat)
    requires Possible(cfg, es) && Possible(cfg, es + fs)
    requires j < |After(cfg, es).rule.runs| && After(cfg, es).rule.runs[j].cancelled
    ensures var n := After(cfg, es + fs).rule;
      j < |n.runs| && n.runs[j].cancelled && SentBy(n, j) == SentBy(After(cfg, es).rule, j)
    decreases |fs|
  {
    if fs == [] {
      assert es + fs == es;
    } else {
      var all, front := es + fs, fs[..|fs| - 1];
      assert all[..|all| - 1] == es + front && all[|all| - 1] == fs[|fs| - 1];
      CancelledSilent(cfg, es, front, j);
      StepSilent(cfg, After(cfg, es + front), fs[|fs| - 1], j);
    }
  }

  // A falling edge of a rule without a delay silences the run of the rise before it.
  lemma FallSilences(cfg: Config, es: seq<Event>, fs: seq<Event>)
    requires cfg.hold == 0 && Possible(cfg, es) && After(cfg, es).rule.active
    requires Possible(cfg, es + [Evaluation(false)] + fs)
    ensures var j, n := |After(cfg, es).rule.runs| - 1, After(cfg, es + [Evaluation(false)] + fs).rule;
      && 0 <= j < |n.runs| && n.runs[j].cancelled && SentBy(n, j) == SentBy(After(cfg, es).rule, j)
  {
    EveryRun(cfg, es);
    var m := After(cfg, es);
    TrueHasRisen(m.rule.log);
    AfterSnoc(cfg, es, Evaluation(false));
    var fallen := es + [Evaluation(false)];
    var j := |m.rule.runs| - 1;
    assert After(cfg, fallen).rule.runs[j].cancelled && SentBy(After(cfg, fallen).rule, j) == SentBy(m.rule, j);
    CancelledSilent(cfg, fallen, fs, j);
  }

  // ---- the whole engine -------------------------------------------------------------

  lemma {:induction false} ViewGrows(specs: Logic.Specs, es: seq<Logic.WorldEvent>, k: nat, u: string)
    requires u in specs && Logic.PossibleRun(specs, es) && k <= |es|
    ensures Logic.PossibleRun(specs, es[..k]) && Logic.View(specs, es[..k], u) <= Logic.View(specs, es, u)
    decreases |es|
  {
    if k == |es| {
      assert es[..k] == es;
    } else {
      var f := es[..|es| - 1];
      assert f[..k] == es[..k];
      ViewGrows(specs, f, k, u);
    }
  }

  // In every interleaving of all rules: from the moment it is cancelled on, a run is silent.
  lemma EngineSilences(specs: Logic.Specs, es: seq<Logic.WorldEvent>, k: nat, u: string, j: nat)
    requires u in specs && Logic.PossibleRun(specs, es) && k <= |es| && Logic.PossibleRun(specs, es[..k])
    requires var r := Logic.Final(specs, es[..k]).rules[u]; j < |r.runs| && r.runs[j].cancelled
    ensures var r, n := Logic.Final(specs, es[..k]).rules[u], Logic.Final(specs, es).rules[u];
      j < |n.runs| && n.runs[j].cancelled && SentBy(n, j) == SentBy(r, j)
  {
    Logic.ViewIsRun(specs, es, u);
    Logic.ViewIsRun(specs, es[..k], u);
    ViewGrows(specs, es, k, u);
    GrownSilent(specs[u].cfg, Logic.View(specs, es[..k], u), Logic.View(specs, es, u), j);
  }

  lemma GrownSilent(cfg: Config, before: seq<Event>, all: seq<Event>, j: nat)
    requires before <= all && Possible(cfg, before) && Possible(cfg, all)
    requires j < |After(cfg, before).rule.runs| && After(cfg, before).rule.runs[j].cancelled
    ensures var n := After(cfg, all).rule;
      j < |n.runs| && n.runs[j].cancelled && SentBy(n, j) == SentBy(After(cfg, before).rule, j)
  {
    assert all == before + all[|before|..];
    CancelledSilent(cfg, before, all[|before|..], j);
  }
}
