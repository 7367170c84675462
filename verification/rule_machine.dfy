// One rule as a state machine (logic/logic.go runFor and runNow, logic/rule.go): the
// worker evaluates it, timers of a rule with a delay expire, action runs progress.
// Whole runs of the machine are sequences of events; the theorems are about every one.
//
// Steps are atomic: one evaluation by the worker, one timer expiry together with its
// second evaluation and the start of the actions, one action of a run. A timer is
// waiting, and a run has stored its cancel function, before the next step.
module RuleMachine {
  import opened ActionRun

  // ---- state ----------------------------------------------------------------

  datatype Config = Config(hold: int, actions: seq<Action>, destinations: seq<string>, store: Store)

  // What happened, in order. Evaluated by the worker, or again at expiry.
  datatype Entry =
    | Evaluated(at: int, value: bool, byWorker: bool)
    | Began(at: int)
    | Started(at: int)
    | Cancelled(run: int)

  // shown: the pending and active flags as last reported to the server.
  datatype Shown = Shown(pending: bool, active: bool)

  // timers: when each waiting timer began. cancel: the run that owns the stored
  // cancel function.
  datatype Rule = Rule(
    active: bool, pending: bool, shown: Shown,
    timers: seq<int>, runs: seq<Run>, cancel: int, log: seq<Entry>)

  const IDLE := Rule(false, false, Shown(false, false), [], [], -1, [])

  // ---- steps ----------------------------------------------------------------

  function Note(r: Rule, e: Entry): Rule {
    r.(log := r.log + [e])
  }

  // A send on the unbuffered stop channel, dropped when nobody waits: one timer goes.
  function Stop(r: Rule): Rule {
    r.(timers := if r.timers == [] then [] else r.timers[1..])
  }

  // go Run(...): a fresh run owns the cancel function from now on.
  function Start(r: Rule, now: int): Rule {
    Note(r, Started(now)).(runs := r.runs + [FRESH], cancel := |r.runs|)
  }

  function Cancel(r: Rule): Rule {
    if 0 <= r.cancel < |r.runs| then
      Note(r, Cancelled(r.cancel)).(runs := r.runs[r.cancel := r.runs[r.cancel].(cancelled := true)])
    else r
  }

  function RunFor(r: Rule, now: int, evaluation: bool): Rule {
    if evaluation == r.pending then r
    else if evaluation then
      var s := Stop(r.(pending := true));
      Note(s, Began(now)).(timers := s.timers + [now], shown := s.shown.(pending := true))
    else r.(pending := false, active := false, shown := Shown(false, false))
  }

  function RunNow(r: Rule, now: int, evaluation: bool): Rule {
    if evaluation == r.active then r
    else
      var s := r.(active := evaluation, shown := Shown(false, evaluation));
      if evaluation then Start(s, now) else Cancel(s)
  }

  function Evaluate(cfg: Config, r: Rule, now: int, evaluation: bool): Rule {
    var s := Note(r, Evaluated(now, evaluation, true));
    if cfg.hold == 0 then RunNow(s, now, evaluation) else RunFor(s, now, evaluation)
  }

  // Timer i fires: evaluate again, and only then become active.
  function Expire(r: Rule, now: int, i: nat, evaluation: bool): Rule
    requires i < |r.timers|
  {
    var s := Note(Abandon(r, i), Evaluated(now, evaluation, false));
    if !evaluation then s
    else Start(s.(active := true, shown := Shown(false, true)), now)
  }

  // Timer i leaves because the server shuts down.
  function Abandon(r: Rule, i: nat): Rule
    requires i < |r.timers|
  {
    r.(timers := r.timers[..i] + r.timers[i + 1..])
  }

  function Progress(cfg: Config, r: Rule, j: nat, c: Choice): Rule
    requires j < |r.runs| && r.runs[j].pc <= |cfg.actions|
  {
    r.(runs := r.runs[j := Act(r.runs[j], cfg.actions, cfg.destinations, cfg.store, c)])
  }

  // ---- whole runs -----------------------------------------------------------

  // The evaluations in events are whatever the expression says at that moment.
  datatype Event =
    | Tick(d: nat)
    | Evaluation(value: bool)
    | Expiry(i: nat, value: bool)
    | Shutdown(i: nat)
    | Action(j: nat, choice: Choice)

  datatype Moment = Moment(now: int, rule: Rule)

  predicate Enabled(cfg: Config, m: Moment, e: Event) {
    match e
    case Tick(_) => true
    case Evaluation(_) => true
    case Expiry(i, _) => i < |m.rule.timers| && m.rule.timers[i] + cfg.hold <= m.now
    case Shutdown(i) => i < |m.rule.timers|
    case Action(j, c) => j < |m.rule.runs| && CanAct(m.rule.runs[j], cfg.actions, cfg.store, c)
  }

  function Step(cfg: Config, m: Moment, e: Event): Moment
    requires Enabled(cfg, m, e)
  {
    match e
    case Tick(d) => Moment(m.now + d, m.rule)
    case Evaluation(v) => Moment(m.now, Evaluate(cfg, m.rule, m.now, v))
    case Expiry(i, v) => Moment(m.now, Expire(m.rule, m.now, i, v))
    case Shutdown(i) => Moment(m.now, Abandon(m.rule, i))
    case Action(j, c) => Moment(m.now, Progress(cfg, m.rule, j, c))
  }

  // The events can happen in this order, from an idle rule.
  predicate Possible(cfg: Config, es: seq<Event>)
    decreases |es|, 0
  {
    es == []
    || (Possible(cfg, es[..|es| - 1]) && Enabled(cfg, After(cfg, es[..|es| - 1]), es[|es| - 1]))
  }

  function After(cfg: Config, es: seq<Event>): Moment
    requires Possible(cfg, es)
    decreases |es|, 1
  {
    if es == [] then Moment(0, IDLE)
    else Step(cfg, After(cfg, es[..|es| - 1]), es[|es| - 1])
  }

  // ---- reading the log ------------------------------------------------------

  function Front(log: seq<Entry>): seq<Entry>
    requires log != []
  {
    log[..|log| - 1]
  }

  function Last(log: seq<Entry>): Entry
    requires log != []
  {
    log[|log| - 1]
  }

  // The last evaluation by the worker; false before the first.
  function LastWorker(log: seq<Entry>): bool {
    if log == [] then false
    else if Last(log).Evaluated? && Last(log).byWorker then Last(log).value
    else LastWorker(Front(log))
  }

  // A rising edge: the worker sees true after false.
  predicate Rising(log: seq<Entry>) {
    log != [] && Last(log).Evaluated? && Last(log).byWorker && Last(log).value && !LastWorker(Front(log))
  }

  predicate Falling(log: seq<Entry>) {
    log != [] && Last(log).Evaluated? && Last(log).byWorker && !Last(log).value && LastWorker(Front(log))
  }

  function Rises(log: seq<Entry>): nat {
    if log == [] then 0 else Rises(Front(log)) + if Rising(log) then 1 else 0
  }

  function Begun(log: seq<Entry>): nat {
    if log == [] then 0 else Begun(Front(log)) + if Last(log).Began? then 1 else 0
  }

  function Starts(log: seq<Entry>): nat {
    if log == [] then 0 else Starts(Front(log)) + if Last(log).Started? then 1 else 0
  }

  // When the latest timer began, as long as every evaluation since was true.
  datatype Hold = Broken | Since(t: int)

  function HeldSince(log: seq<Entry>): Hold {
    if log == [] then Broken
    else
      match Last(log)
      case Began(t) => Since(t)
      case Evaluated(_, v, _) => if v then HeldSince(Front(log)) else Broken
      case _ => HeldSince(Front(log))
  }

  // What HeldSince says about the log itself.
  lemma {:induction false} HeldSinceMeans(log: seq<Entry>, t: int)
    ensures HeldSince(log) == Since(t) <==> exists b :: HeldFrom(log, b, t)
  {
    if log != [] {
      var f := Front(log);
      HeldSinceMeans(f, t);
      if Last(log) == Began(t) {
        assert HeldFrom(log, |log| - 1, t);
      } else if !Last(log).Began? && !(Last(log).Evaluated? && !Last(log).value) {
        forall b | 0 <= b < |f|
          ensures HeldFrom(f, b, t) <==> HeldFrom(log, b, t)
        {
          assert forall k :: 0 <= k < |f| ==> f[k] == log[k];
          assert HeldFrom(log, b, t) ==> log[b] != Last(log);
        }
        assert !HeldFrom(log, |log| - 1, t);
        assert forall b :: HeldFrom(f, b, t) ==> 0 <= b < |f|;
        assert forall b :: HeldFrom(log, b, t) ==> 0 <= b < |f|;
      } else {
        assert forall b :: !HeldFrom(log, b, t);
      }
    }
  }

  // A timer began at entry b at time t, no other began after it, and no evaluation
  // after it was false.
  predicate HeldFrom(log: seq<Entry>, b: int, t: int) {
    && 0 <= b < |log| && log[b] == Began(t)
    && forall k :: b < k < |log| ==> !log[k].Began? && (log[k].Evaluated? ==> log[k].value)
  }

  // The start at entry i came after the condition had held, by every evaluation, for
  // the whole delay.
  predicate Debounced(log: seq<Entry>, i: nat, hold: int)
    requires i < |log|
  {
    var h := HeldSince(log[..i]);
    log[i].Started? && h.Since? && h.t + hold <= log[i].at
  }

  // ---- what every reachable state of a rule satisfies ---------------------------

  // Any rule, any expression.
  predicate Always(cfg: Config, m: Moment) {
    var r := m.rule;
    && (forall j :: 0 <= j < |r.runs| ==> WholeActions(r.runs[j], cfg.actions, cfg.destinations, cfg.store))
    && r.cancel == |r.runs| - 1
    && |r.runs| == Starts(r.log)
    && r.shown.active == r.active
  }

  // A rule with a delay, any expression: at most one timer, begun by the latest
  // rising edge; starts never outnumber rising edges.
  predicate Delayed(cfg: Config, m: Moment) {
    var r := m.rule;
    && |r.timers| <= 1
    && r.pending == LastWorker(r.log)
    && Begun(r.log) == Rises(r.log)
    && Starts(r.log) + |r.timers| <= Begun(r.log)
    && (r.timers != [] ==> LastBegan(r.log) == Since(r.timers[0]))
    && (HeldSince(r.log).Since? ==> HeldSince(r.log) == LastBegan(r.log))
    && (!r.pending ==> HeldSince(r.log) == Broken)
    && (r.pending && r.timers != [] ==> HeldSince(r.log).Since?)
    && (forall j :: 0 <= j < |r.runs| && r.runs[j].cancelled ==> r.runs[j].over)
  }

  // The latest timer, whatever was evaluated since.
  function LastBegan(log: seq<Entry>): Hold {
    if log == [] then Broken
    else if Last(log).Began? then Since(Last(log).at)
    else LastBegan(Front(log))
  }

  // A rule without a delay, any expression: active is the last evaluation, every
  // run but that of a current rise is cancelled.
  predicate Immediate(cfg: Config, m: Moment) {
    var r := m.rule;
    && r.timers == [] && !r.pending && !r.shown.pending
    && r.active == LastWorker(r.log)
    && Starts(r.log) == Rises(r.log)
    && (forall j :: 0 <= j < |r.runs| && !r.runs[j].cancelled ==> j == |r.runs| - 1 && r.active)
    && EdgesAnswered(r.log)
  }

  // Every rising edge is answered by a start and every falling edge by cancelling
  // the latest run; nothing else starts or cancels.
  predicate EdgesAnswered(log: seq<Entry>) {
    forall i :: 0 <= i < |log| ==> Answered(log, i)
  }

  predicate Answered(log: seq<Entry>, i: nat)
    requires i < |log|
  {
    && (Rising(log[..i + 1]) ==> i + 1 < |log| && log[i + 1].Started?)
    && (Falling(log[..i + 1]) ==> i + 1 < |log| && log[i + 1] == Cancelled(Starts(log[..i + 1]) - 1))
    && (log[i].Started? ==> i > 0 && Rising(log[..i]))
    && (log[i].Cancelled? ==> i > 0 && Falling(log[..i]))
  }

  // With an expression over device states alone an expiry sees what the worker saw
  // last, because only the worker changes device states.
  predicate Consistent(cfg: Config, es: seq<Event>)
    requires Possible(cfg, es)
  {
    es == []
    || (Consistent(cfg, es[..|es| - 1])
        && (es[|es| - 1].Expiry? ==> es[|es| - 1].value == LastWorker(After(cfg, es[..|es| - 1]).rule.log)))
  }

  // Then also: pending holds since the last rise, active implies pending, and the
  // server shows a rule as pending until it is active.
  predicate Steady(cfg: Config, m: Moment) {
    var r := m.rule;
    && (r.active ==> r.pending)
    && (r.pending ==> HeldSince(r.log).Since?)
    && r.shown.pending == (r.pending && !r.active)
    && (forall i :: 0 <= i < |r.log| && r.log[i].Started? ==> Debounced(r.log, i, cfg.hold))
  }

  // ---- every step keeps them --------------------------------------------------

  lemma Snoc(log: seq<Entry>, e: Entry)
    ensures Front(log + [e]) == log && Last(log + [e]) == e
    ensures LastWorker(log + [e]) == if e.Evaluated? && e.byWorker then e.value else LastWorker(log)
    ensures Rises(log + [e]) == Rises(log) + if Rising(log + [e]) then 1 else 0
    ensures Begun(log + [e]) == Begun(log) + if e.Began? then 1 else 0
    ensures Starts(log + [e]) == Starts(log) + if e.Started? then 1 else 0
    ensures LastBegan(log + [e]) == if e.Began? then Since(e.at) else LastBegan(log)
    ensures HeldSince(log + [e]) ==
      if e.Began? then Since(e.at)
      else if e.Evaluated? && !e.value then Broken
      else HeldSince(log)
  {
    assert (log + [e])[..|log|] == log;
  }

  lemma AlwaysFor(cfg: Config, m: Moment, v: bool)
    requires Always(cfg, m) && cfg.hold != 0
    ensures Always(cfg, Step(cfg, m, Evaluation(v)))
  {
    Snoc(m.rule.log, Evaluated(m.now, v, true));
    Snoc(m.rule.log + [Evaluated(m.now, v, true)], Began(m.now));
  }

  lemma AlwaysNow(cfg: Config, m: Moment, v: bool)
    requires Always(cfg, m) && cfg.hold == 0
    ensures Always(cfg, Step(cfg, m, Evaluation(v)))
  {
    var l := m.rule.log + [Evaluated(m.now, v, true)];
    Snoc(m.rule.log, Evaluated(m.now, v, true));
    Snoc(l, Started(m.now));
    Snoc(l, Cancelled(m.rule.cancel));
  }

  lemma AlwaysExpiry(cfg: Config, m: Moment, i: nat, v: bool)
    requires Always(cfg, m) && Enabled(cfg, m, Expiry(i, v))
    ensures Always(cfg, Step(cfg, m, Expiry(i, v)))
  {
    Snoc(m.rule.log, Evaluated(m.now, v, false));
    Snoc(m.rule.log + [Evaluated(m.now, v, false)], Started(m.now));
  }

  lemma AlwaysStep(cfg: Config, m: Moment, e: Event)
    requires Always(cfg, m) && Enabled(cfg, m, e)
    ensures Always(cfg, Step(cfg, m, e))
  {
    match e
    case Tick(_) =>
    case Shutdown(_) =>
    case Action(j, c) => ActKeepsWhole(m.rule.runs[j], cfg.actions, cfg.destinations, cfg.store, c);
    case Expiry(i, v) => AlwaysExpiry(cfg, m, i, v);
    case Evaluation(v) =>
      if cfg.hold == 0 {
        AlwaysNow(cfg, m, v);
      } else {
        AlwaysFor(cfg, m, v);
      }
  }

  lemma DelayedEvaluation(cfg: Config, m: Moment, v: bool)
    requires cfg.hold != 0 && Delayed(cfg, m)
    ensures Delayed(cfg, Step(cfg, m, Evaluation(v)))
  {
    var r := m.rule;
    var l := r.log + [Evaluated(m.now, v, true)];
    Snoc(r.log, Evaluated(m.now, v, true));
    if v && !r.pending {
      Snoc(l, Began(m.now));
      assert |Stop(r).timers| == 0;
    }
  }

  lemma DelayedExpiry(cfg: Config, m: Moment, i: nat, v: bool)
    requires cfg.hold != 0 && Delayed(cfg, m) && Enabled(cfg, m, Expiry(i, v))
    ensures Delayed(cfg, Step(cfg, m, Expiry(i, v)))
  {
    Snoc(m.rule.log, Evaluated(m.now, v, false));
    Snoc(m.rule.log + [Evaluated(m.now, v, false)], Started(m.now));
    assert |Abandon(m.rule, i).timers| == 0;
  }

  lemma DelayedStep(cfg: Config, m: Moment, e: Event)
    requires cfg.hold != 0 && Always(cfg, m) && Delayed(cfg, m) && Enabled(cfg, m, e)
    ensures Delayed(cfg, Step(cfg, m, e))
  {
    match e
    case Tick(_) =>
    case Shutdown(_) =>
    case Action(j, c) =>
    case Expiry(i, v) => DelayedExpiry(cfg, m, i, v);
    case Evaluation(v) => DelayedEvaluation(cfg, m, v);
  }

  lemma SteadyEvaluation(cfg: Config, m: Moment, v: bool)
    requires cfg.hold != 0 && Delayed(cfg, m) && Steady(cfg, m)
    ensures Steady(cfg, Step(cfg, m, Evaluation(v)))
  {
    var r := m.rule;
    var l := r.log + [Evaluated(m.now, v, true)];
    Snoc(r.log, Evaluated(m.now, v, true));
    Snoc(l, Began(m.now));
    DebouncedKept(r.log, Step(cfg, m, Evaluation(v)).rule.log, cfg.hold);
  }

  lemma SteadyExpiry(cfg: Config, m: Moment, i: nat)
    requires cfg.hold != 0 && Delayed(cfg, m) && Steady(cfg, m)
    requires Enabled(cfg, m, Expiry(i, LastWorker(m.rule.log)))
    ensures Steady(cfg, Step(cfg, m, Expiry(i, LastWorker(m.rule.log))))
  {
    var r := m.rule;
    var v := LastWorker(r.log);
    var log := Step(cfg, m, Expiry(i, v)).rule.log;
    var l := r.log + [Evaluated(m.now, v, false)];
    Snoc(r.log, Evaluated(m.now, v, false));
    Snoc(l, Started(m.now));
    DebouncedKept(r.log, log, cfg.hold);
    if v {
      assert log == l + [Started(m.now)] && log[..|l|] == l;
      assert Debounced(log, |l|, cfg.hold);
    }
  }

  lemma SteadyStep(cfg: Config, m: Moment, e: Event)
    requires cfg.hold != 0 && Delayed(cfg, m) && Steady(cfg, m) && Enabled(cfg, m, e)
    requires e.Expiry? ==> e.value == LastWorker(m.rule.log)
    ensures Steady(cfg, Step(cfg, m, e))
  {
    match e
    case Tick(_) =>
    case Shutdown(_) =>
    case Action(j, c) =>
    case Expiry(i, v) => SteadyExpiry(cfg, m, i);
    case Evaluation(v) => SteadyEvaluation(cfg, m, v);
  }

  lemma DebouncedKept(log: seq<Entry>, longer: seq<Entry>, hold: int)
    requires log <= longer
    requires forall i :: 0 <= i < |log| && log[i].Started? ==> Debounced(log, i, hold)
    ensures forall i :: 0 <= i < |log| && longer[i].Started? ==> Debounced(longer, i, hold)
  {
    forall i | 0 <= i < |log| && longer[i].Started?
      ensures Debounced(longer, i, hold)
    {
      assert longer[..i] == log[..i];
    }
  }

  lemma ImmediateStep(cfg: Config, m: Moment, e: Event)
    requires cfg.hold == 0 && Always(cfg, m) && Immediate(cfg, m) && Enabled(cfg, m, e)
    ensures Immediate(cfg, Step(cfg, m, e))
  {
    var r := m.rule;
    if e.Evaluation? {
      var v := e.value;
      var l := r.log + [Evaluated(m.now, v, true)];
      Snoc(r.log, Evaluated(m.now, v, true));
      Snoc(l, Started(m.now));
      Snoc(l, Cancelled(r.cancel));
      if r.active {
        TrueHasRisen(r.log);
      }
      EdgesKept(r.log, Evaluated(m.now, v, true), if v then Started(m.now) else Cancelled(r.cancel));
    }
  }

  lemma {:induction false} TrueHasRisen(log: seq<Entry>)
    requires LastWorker(log)
    ensures Rises(log) > 0
  {
    if !(Last(log).Evaluated? && Last(log).byWorker) || LastWorker(Front(log)) {
      TrueHasRisen(Front(log));
    }
  }

  // Appending an evaluation, and behind an edge its answer, keeps every edge answered.
  lemma EdgesKept(log: seq<Entry>, e: Entry, answer: Entry)
    requires EdgesAnswered(log)
    requires e.Evaluated? && e.byWorker
    requires answer.Started? || answer.Cancelled?
    ensures e.value == LastWorker(log) ==> EdgesAnswered(log + [e])
    ensures Rising(log + [e]) && answer.Started? ==> EdgesAnswered(log + [e] + [answer])
    ensures Falling(log + [e]) && answer == Cancelled(Starts(log) - 1) ==> EdgesAnswered(log + [e] + [answer])
  {
    var l := log + [e];
    var k := l + [answer];
    Snoc(log, e);
    Snoc(l, answer);
    forall i | 0 <= i < |log|
      ensures Answered(l, i) && Answered(k, i)
    {
      assert Answered(log, i);
      assert l[..i + 1] == log[..i + 1] && k[..i + 1] == log[..i + 1];
      assert l[..i] == log[..i] && k[..i] == log[..i];
    }
    assert l[..|log| + 1] == l && k[..|l|] == l && k[..|l| + 1] == k;
  }

  // ---- the theorems, over every run --------------------------------------------

  lemma {:induction false} EveryRun(cfg: Config, es: seq<Event>)
    requires Possible(cfg, es)
    ensures Always(cfg, After(cfg, es))
    ensures cfg.hold != 0 ==> Delayed(cfg, After(cfg, es))
    ensures cfg.hold == 0 ==> Immediate(cfg, After(cfg, es))
    decreases |es|
  {
    if es != [] {
      var f := es[..|es| - 1];
      var e := es[|es| - 1];
      EveryRun(cfg, f);
      AlwaysStep(cfg, After(cfg, f), e);
      if cfg.hold != 0 {
        DelayedStep(cfg, After(cfg, f), e);
      } else {
        ImmediateStep(cfg, After(cfg, f), e);
      }
    }
  }

  // Debounce safety: in every run whose expression depends on device states alone, a
  // rule with a delay starts its actions only after the condition has held for the
  // whole delay, by every evaluation, since a timer began - however it flapped before.
  lemma {:induction false} DebounceSafety(cfg: Config, es: seq<Event>)
    requires cfg.hold != 0 && Possible(cfg, es) && Consistent(cfg, es)
    ensures Steady(cfg, After(cfg, es))
    decreases |es|
  {
    if es != [] {
      var f := es[..|es| - 1];
      DebounceSafety(cfg, f);
      EveryRun(cfg, f);
      SteadyStep(cfg, After(cfg, f), es[|es| - 1]);
    }
  }

  // Without that restriction: an expiry that starts the actions is debounced exactly
  // when the rule is still pending.
  lemma StartDebouncedIff(cfg: Config, es: seq<Event>, i: nat)
    requires cfg.hold != 0 && Possible(cfg, es)
    requires Enabled(cfg, After(cfg, es), Expiry(i, true))
    ensures var m := After(cfg, es);
            var log := Step(cfg, m, Expiry(i, true)).rule.log;
            log[|log| - 1] == Started(m.now)
            && (Debounced(log, |log| - 1, cfg.hold) <==> m.rule.pending)
  {
    EveryRun(cfg, es);
    var m := After(cfg, es);
    var l := m.rule.log + [Evaluated(m.now, true, false)];
    var log := Step(cfg, m, Expiry(i, true)).rule.log;
    Snoc(m.rule.log, Evaluated(m.now, true, false));
    assert log == l + [Started(m.now)] && log[..|l|] == l;
  }

  // Debounce safety read off the log: before every start there is a timer that began
  // at least the delay earlier with no false evaluation in between.
  lemma StartsAreDebounced(cfg: Config, es: seq<Event>, i: nat)
    requires cfg.hold != 0 && Possible(cfg, es) && Consistent(cfg, es)
    requires i < |After(cfg, es).rule.log| && After(cfg, es).rule.log[i].Started?
    ensures var log := After(cfg, es).rule.log;
            exists b, t :: 0 <= b < i && t + cfg.hold <= log[i].at && HeldFrom(log[..i], b, t)
  {
    DebounceSafety(cfg, es);
    var log := After(cfg, es).rule.log;
    assert Debounced(log, i, cfg.hold);
    var t := HeldSince(log[..i]).t;
    HeldSinceMeans(log[..i], t);
    var b :| HeldFrom(log[..i], b, t);
  }

  lemma AfterSnoc(cfg: Config, es: seq<Event>, e: Event)
    requires Possible(cfg, es) && Enabled(cfg, After(cfg, es), e)
    ensures Possible(cfg, es + [e]) && After(cfg, es + [e]) == Step(cfg, After(cfg, es), e)
    ensures Consistent(cfg, es + [e]) <==>
      Consistent(cfg, es) && (e.Expiry? ==> e.value == LastWorker(After(cfg, es).rule.log))
  {
    assert (es + [e])[..|es|] == es;
  }

  lemma RiseWaits(r: Rule, now: int)
    requires !r.pending && r.timers == []
    ensures var n := RunFor(Note(r, Evaluated(now, true, true)), now, true);
      n.pending && n.timers == [now] && n.runs == r.runs && LastWorker(n.log)
  {
    Snoc(r.log, Evaluated(now, true, true));
    Snoc(r.log + [Evaluated(now, true, true)], Began(now));
  }

  lemma ExpiryStarts(r: Rule, now: int)
    requires |r.timers| == 1
    ensures var n := Expire(r, now, 0, true);
      n.pending == r.pending && n.timers == [] && n.runs == r.runs + [FRESH]
  {
  }

  // The condition turns true and holds for the delay; a negative one is over at once.
  lemma RiseAndExpire(cfg: Config, es: seq<Event>) returns (fs: seq<Event>)
    requires cfg.hold != 0 && Possible(cfg, es) && Consistent(cfg, es)
    requires !After(cfg, es).rule.pending && After(cfg, es).rule.timers == []
    ensures Possible(cfg, fs) && Consistent(cfg, fs)
    ensures var r := After(cfg, fs).rule;
            r.pending && r.timers == [] && r.runs == After(cfg, es).rule.runs + [FRESH]
  {
    var m := After(cfg, es);
    var d: nat := if cfg.hold > 0 then cfg.hold else 0;
    var r := RunFor(Note(m.rule, Evaluated(m.now, true, true)), m.now, true);
    RiseWaits(m.rule, m.now);
    var a, b := es + [Evaluation(true)], es + [Evaluation(true)] + [Tick(d)];
    AfterSnoc(cfg, es, Evaluation(true));
    assert After(cfg, a) == Moment(m.now, r);
    AfterSnoc(cfg, a, Tick(d));
    assert After(cfg, b) == Moment(m.now + d, r);
    ExpiryStarts(r, m.now + d);
    AfterSnoc(cfg, b, Expiry(0, true));
    fs := b + [Expiry(0, true)];
  }

  // A falling edge never cancels the actions of a rule with a delay: whatever the
  // delay and the actions, flapping leaves two untouched runs side by side.
  lemma DelayedRunsOverlap(cfg: Config) returns (es: seq<Event>)
    requires cfg.hold != 0
    ensures Possible(cfg, es) && Consistent(cfg, es)
    ensures After(cfg, es).rule.runs == [FRESH, FRESH]
  {
    es := RiseAndExpire(cfg, []);
    AfterSnoc(cfg, es, Evaluation(false));
    es := es + [Evaluation(false)];
    es := RiseAndExpire(cfg, es);
  }

  predicate OneRun(r: Rule) {
    forall i, j :: 0 <= i < j < |r.runs| ==> r.runs[i].cancelled || r.runs[j].cancelled
  }

  // At most one action run is ever uncancelled if and only if the rule has no delay.
  lemma OneRunIff(cfg: Config)
    ensures (forall es :: Possible(cfg, es) ==> OneRun(After(cfg, es).rule)) <==> cfg.hold == 0
  {
    if cfg.hold == 0 {
      forall es | Possible(cfg, es) ensures OneRun(After(cfg, es).rule) {
        EveryRun(cfg, es);
      }
    } else {
      var es := DelayedRunsOverlap(cfg);
      var r := After(cfg, es).rule;
      assert !r.runs[0].cancelled && !r.runs[1].cancelled;
    }
  }

  // ---- when a delayed rule is active ----------------------------------------------------

  predicate NoShutdown(es: seq<Event>) {
    forall i :: 0 <= i < |es| ==> !es[i].Shutdown?
  }

  // As long as the server runs: a rule with a delay is active exactly when it is pending
  // and its timer has fired.
  lemma {:induction false} ActiveIff(cfg: Config, es: seq<Event>)
    requires cfg.hold != 0 && Possible(cfg, es) && Consistent(cfg, es) && NoShutdown(es)
    ensures var r := After(cfg, es).rule; r.active <==> r.pending && r.timers == []
    decreases |es|
  {
    if es != [] {
      var f := es[..|es| - 1];
      ActiveIff(cfg, f);
      EveryRun(cfg, f);
      DebounceSafety(cfg, f);
      ActiveStep(cfg, After(cfg, f), es[|es| - 1]);
    }
  }

  lemma ActiveStep(cfg: Config, m: Moment, e: Event)
    requires cfg.hold != 0 && Delayed(cfg, m) && Steady(cfg, m) && Enabled(cfg, m, e) && !e.Shutdown?
    requires e.Expiry? ==> e.value == LastWorker(m.rule.log)
    requires m.rule.active <==> m.rule.pending && m.rule.timers == []
    ensures var r := Step(cfg, m, e).rule; r.active <==> r.pending && r.timers == []
  {
    if e.Expiry? {
      assert |Abandon(m.rule, e.i).timers| == 0;
    }
  }

  // A shutdown takes the timer away and nothing else; no actions will start from it.
  lemma ShutdownDrops(cfg: Config, m: Moment, i: nat)
    requires Enabled(cfg, m, Shutdown(i))
    ensures var n := Step(cfg, m, Shutdown(i));
      && n.now == m.now && n.rule == m.rule.(timers := n.rule.timers)
      && multiset(m.rule.timers) == multiset(n.rule.timers) + multiset{m.rule.timers[i]}
  {
    var t := m.rule.timers;
    assert t == t[..i] + [t[i]] + t[i + 1..];
  }

  // What a worker evaluation and an expiry do to the flags as such.
  lemma FlagsFollow(cfg: Config, m: Moment, v: bool)
    ensures var n := Step(cfg, m, Evaluation(v)).rule;
      && (cfg.hold == 0 ==> n.active == v && n.pending == m.rule.pending)
      && (cfg.hold != 0 ==> n.pending == v && n.runs == m.rule.runs && n.cancel == m.rule.cancel)
      && (cfg.hold != 0 && !v && m.rule.pending ==> !n.active && n.timers == m.rule.timers)
      && (cfg.hold != 0 && v ==> n.active == m.rule.active && n.shown.active == m.rule.shown.active)
      && (cfg.hold != 0 && v != m.rule.pending ==> n.shown.pending == v)
      && (cfg.hold != 0 && v == m.rule.pending ==> n.shown == m.rule.shown && n.timers == m.rule.timers)
      && (cfg.hold == 0 && v != m.rule.active ==> n.shown == Shown(false, v))
  {
  }

  lemma ExpiryFollows(cfg: Config, m: Moment, i: nat, v: bool)
    requires Enabled(cfg, m, Expiry(i, v))
    ensures var n := Step(cfg, m, Expiry(i, v)).rule;
      && n.pending == m.rule.pending && n.timers == Abandon(m.rule, i).timers
      && (v ==> n.active && n.shown == Shown(false, true))
      && (v ==> n.runs == m.rule.runs + [FRESH] && n.cancel == |m.rule.runs|)
      && (!v ==> n.active == m.rule.active && n.shown == m.rule.shown)
      && (!v ==> n.runs == m.rule.runs && n.cancel == m.rule.cancel)
  {
  }
}
