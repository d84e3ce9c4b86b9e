/** The planning of a turn: a user starts it, and after a failure starts it again; a task generates the
    plan; a user confirms it. The task claims nothing: only the last compare-and-set on the turn's
    status decides, so deliveries may overlap, also those of different attempts. */
module TurnPlanning {
  import opened Sets

  datatype Status = Draft | Planning | PlanReview | PlanningFailed | Confirmed

  /** A delivery under way: generating, about to record a failure, or holding a plan not yet bound. */
  datatype Phase = Generating | Failing | Generated

  /** The attempt is the one that was current when the delivery was let through. */
  datatype Worker = Worker(phase: Phase, attempt: nat)

  /** One turn: its status, how often planning was started, the plan versions that exist, and how many
      of them are bound to the turn. */
  datatype Sys = Sys(status: Status, attempt: nat, created: nat, bound: nat, workers: map<nat, Worker>)

  const Init := Sys(Draft, 0, 0, 0, map[])

  datatype Action =
    | Start
    | Confirm
    | Deliver(w: nat)
    | Generate(w: nat)
    | GenerationFails(w: nat)
    | RecordFailure(w: nat)
    | Bind(w: nat)
    | Crash(w: nat)

  /** UPDATE ... SET status = next WHERE status = 'planning'; a rejected one is swallowed. */
  function Leave(status: Status, next: Status): Status { if status == Planning then next else status }

  predicate Enabled(s: Sys, a: Action) {
    match a
    case Start => s.status == Draft || s.status == PlanningFailed
    case Confirm => s.status == PlanReview && s.bound > 0
    case Deliver(w) => w !in s.workers
    case Generate(w) => w in s.workers && s.workers[w].phase == Generating
    case GenerationFails(w) => w in s.workers && s.workers[w].phase == Generating
    case RecordFailure(w) => w in s.workers && s.workers[w].phase == Failing
    case Bind(w) => w in s.workers && s.workers[w].phase == Generated
    case Crash(w) => w in s.workers
  }

  function Apply(s: Sys, a: Action): Sys
    requires Enabled(s, a)
  {
    match a
    case Start => s.(status := Planning, attempt := s.attempt + 1)
    case Confirm => s.(status := Confirmed)
    case Deliver(w) =>
      if s.bound > 0 then s.(status := Leave(s.status, PlanReview))
      else if s.status != Planning then s
      else s.(workers := s.workers[w := Worker(Generating, s.attempt)])
    case Generate(w) =>
      s.(created := s.created + 1, workers := s.workers[w := s.workers[w].(phase := Generated)])
    case GenerationFails(w) => s.(workers := s.workers[w := s.workers[w].(phase := Failing)])
    case RecordFailure(w) => s.(status := Leave(s.status, PlanningFailed), workers := s.workers - {w})
    case Bind(w) => s.(bound := s.bound + 1, status := Leave(s.status, PlanReview), workers := s.workers - {w})
    case Crash(w) => s.(workers := s.workers - {w})
  }

  predicate CanRun(s: Sys, run: seq<Action>)
    decreases |run|
  {
    run == [] || (Enabled(s, run[0]) && CanRun(Apply(s, run[0]), run[1..]))
  }

  function After(s: Sys, run: seq<Action>): Sys
    requires CanRun(s, run)
    decreases |run|
  {
    if run == [] then s else After(Apply(s, run[0]), run[1..])
  }

  // ---- Over every run ----

  function Waiting(s: Sys): nat { if s.status == Planning then 1 else 0 }

  function Starts(run: seq<Action>): nat {
    if run == [] then 0 else (if run[0].Start? then 1 else 0) + Starts(run[1..])
  }

  /** The steps of the run that take the turn out of `planning`. */
  function Leavings(s: Sys, run: seq<Action>): nat
    requires CanRun(s, run)
    decreases |run|
  {
    if run == [] then 0
    else (if s.status == Planning && Apply(s, run[0]).status != Planning then 1 else 0)
         + Leavings(Apply(s, run[0]), run[1..])
  }

  /** However deliveries overlap, each start is followed by at most one leaving of `planning`: over any
      run the leavings, and the planning still open, make up the starts and the planning open before. */
  lemma {:induction false} LeavesPlanningOncePerStart(s: Sys, run: seq<Action>)
    requires CanRun(s, run)
    ensures Leavings(s, run) + Waiting(After(s, run)) == Starts(run) + Waiting(s)
    decreases |run|
  {
    if run != [] { LeavesPlanningOncePerStart(Apply(s, run[0]), run[1..]); }
  }

  /** A turn that came to review only goes on to be confirmed, which is final; one that failed stays
      failed until it is started again. */
  lemma {:induction false} OutcomeIsFinal(s: Sys, run: seq<Action>)
    requires CanRun(s, run)
    ensures s.status == PlanReview ==> After(s, run).status == PlanReview || After(s, run).status == Confirmed
    ensures s.status == Confirmed ==> After(s, run).status == Confirmed
    ensures s.status == PlanningFailed && Starts(run) == 0 ==> After(s, run).status == PlanningFailed
    decreases |run|
  {
    if run != [] { OutcomeIsFinal(Apply(s, run[0]), run[1..]); }
  }

  predicate HasPlanIfReviewed(s: Sys) { s.status == PlanReview || s.status == Confirmed ==> s.bound > 0 }

  /** A turn under review, or confirmed, has a plan. */
  lemma {:induction false} ReviewHasAPlan(s: Sys, run: seq<Action>)
    requires CanRun(s, run) && HasPlanIfReviewed(s)
    ensures HasPlanIfReviewed(After(s, run))
    decreases |run|
  {
    if run != [] { ReviewHasAPlan(Apply(s, run[0]), run[1..]); }
  }

  // ---- Exactly when an earlier attempt decides a later one ----

  /** A delivery let through in an earlier attempt ends the current one. */
  predicate DecidesLate(s: Sys, a: Action) {
    && (a.Bind? || a.RecordFailure?) && Enabled(s, a)
    && s.status == Planning && s.workers[a.w].attempt != s.attempt
  }

  predicate SomeDecidesLate(s: Sys, run: seq<Action>)
    requires CanRun(s, run)
    decreases |run|
  {
    run != [] && (DecidesLate(s, run[0]) || SomeDecidesLate(Apply(s, run[0]), run[1..]))
  }

  /** The current attempt can yet be ended by a delivery of an earlier one. */
  ghost predicate CanBeDecidedLate(s: Sys) {
    exists run :: CanRun(s, run) && Starts(run) == 0 && SomeDecidesLate(s, run)
  }

  /** Every delivery under way was let through in the current attempt. */
  predicate AllCurrent(s: Sys) { forall w | w in s.workers :: s.workers[w].attempt == s.attempt }

  lemma CurrentStep(s: Sys, a: Action)
    requires Enabled(s, a) && AllCurrent(s)
    ensures AllCurrent(Apply(s, a)) <==> !a.Start? || s.workers == map[]
    ensures a.Start? && s.workers != map[] ==> Apply(s, a).status == Planning && !AllCurrent(Apply(s, a))
  {
    if a.Start? && s.workers != map[] {
      var w :| w in s.workers;
      assert Apply(s, a).workers[w].attempt != Apply(s, a).attempt;
    }
  }

  lemma {:induction false} NoneDecidesLate(s: Sys, run: seq<Action>)
    requires CanRun(s, run) && Starts(run) == 0 && (AllCurrent(s) || s.status != Planning)
    ensures !SomeDecidesLate(s, run)
    decreases |run|
  {
    if run != [] {
      if AllCurrent(s) { CurrentStep(s, run[0]); }
      NoneDecidesLate(Apply(s, run[0]), run[1..]);
    }
  }

  lemma LateOne(s: Sys, a: Action)
    requires DecidesLate(s, a)
    ensures CanRun(s, [a]) && Starts([a]) == 0 && SomeDecidesLate(s, [a])
  {
    assert [a][1..] == [];
  }

  lemma DecideLate(s: Sys, w: nat) returns (run: seq<Action>)
    requires s.status == Planning && w in s.workers && s.workers[w].attempt != s.attempt
    ensures CanRun(s, run) && Starts(run) == 0 && SomeDecidesLate(s, run)
  {
    match s.workers[w].phase {
      case Failing => run := [RecordFailure(w)]; LateOne(s, RecordFailure(w));
      case Generated => run := [Bind(w)]; LateOne(s, Bind(w));
      case Generating =>
        var t := Apply(s, Generate(w));
        LateOne(t, Bind(w));
        Prefix(s, Generate(w), t, [Bind(w)]);
        run := [Generate(w)] + [Bind(w)];
        assert run[0] == Generate(w) && run[1..] == [Bind(w)];
    }
  }

  /** From any state: before the turn is started again, a delivery of an earlier attempt can end the
      current one exactly when the turn is planning and such a delivery is under way. */
  lemma CanBeDecidedLateExactly(s: Sys)
    ensures CanBeDecidedLate(s) <==> s.status == Planning && !AllCurrent(s)
  {
    if run :| CanRun(s, run) && Starts(run) == 0 && SomeDecidesLate(s, run) {
      if AllCurrent(s) || s.status != Planning { NoneDecidesLate(s, run); }
    }
    if s.status == Planning && !AllCurrent(s) {
      var w :| w in s.workers && s.workers[w].attempt != s.attempt;
      var run := DecideLate(s, w);
    }
  }

  /** At no point of the run can the attempt then current be ended by an earlier one. */
  ghost predicate NeverDecidedLate(s: Sys, run: seq<Action>)
    requires CanRun(s, run)
    decreases |run|
  {
    !CanBeDecidedLate(s) && (run == [] || NeverDecidedLate(Apply(s, run[0]), run[1..]))
  }

  /** Each start finds no delivery under way. */
  predicate CleanStarts(s: Sys, run: seq<Action>)
    requires CanRun(s, run)
    decreases |run|
  {
    run == [] || ((run[0].Start? ==> s.workers == map[]) && CleanStarts(Apply(s, run[0]), run[1..]))
  }

  /** Over a whole run no attempt is ever exposed to an earlier one exactly when each start finds no
      delivery under way. */
  lemma {:induction false} CleanStartsExactly(s: Sys, run: seq<Action>)
    requires CanRun(s, run) && AllCurrent(s)
    ensures NeverDecidedLate(s, run) <==> CleanStarts(s, run)
    decreases |run|
  {
    CanBeDecidedLateExactly(s);
    if run != [] {
      CurrentStep(s, run[0]);
      if AllCurrent(Apply(s, run[0])) {
        CleanStartsExactly(Apply(s, run[0]), run[1..]);
      } else {
        CanBeDecidedLateExactly(Apply(s, run[0]));
      }
    }
  }

  // ---- Deliveries that do not overlap ----

  /** Deliveries do not overlap: each starts with no other under way. */
  predicate Serial(s: Sys, run: seq<Action>)
    requires CanRun(s, run)
    decreases |run|
  {
    run == [] || ((run[0].Deliver? ==> s.workers == map[]) && Serial(Apply(s, run[0]), run[1..]))
  }

  ghost predicate AtMostOnePlan(s: Sys) {
    && s.bound <= 1
    && (forall w, v | w in s.workers && v in s.workers :: w == v)
    && (s.workers != map[] ==> s.bound == 0)
    && (s.status == PlanningFailed ==> s.bound == 0 && s.workers == map[])
  }

  lemma SerialStep(s: Sys, a: Action)
    requires Enabled(s, a) && AtMostOnePlan(s) && (a.Deliver? ==> s.workers == map[])
    ensures AtMostOnePlan(Apply(s, a))
  {
    match a {
      case RecordFailure(w) => assert s.workers - {w} == map[];
      case Bind(w) => assert s.workers - {w} == map[];
      case Crash(w) => assert s.workers - {w} == map[];
      case _ =>
    }
  }

  /** When deliveries do not overlap, crashes included, a turn gets at most one plan, and a failed turn
      has none. */
  lemma {:induction false} SerialDeliveriesBindOnePlan(s: Sys, run: seq<Action>)
    requires CanRun(s, run) && AtMostOnePlan(s) && Serial(s, run)
    ensures AtMostOnePlan(After(s, run))
    decreases |run|
  {
    if run != [] {
      SerialStep(s, run[0]);
      SerialDeliveriesBindOnePlan(Apply(s, run[0]), run[1..]);
    }
  }

  // ---- Exactly when plans pile up ----

  /** The deliveries that can still bind a plan. */
  function Live(s: Sys): set<nat> { set w | w in s.workers && s.workers[w].phase != Failing }

  function StillGenerating(s: Sys): set<nat> { set w | w in s.workers && s.workers[w].phase == Generating }

  /** The plans bound, and those that the deliveries under way can still bind. */
  function Potential(s: Sys): nat { s.bound + |Live(s)| }

  /** No further delivery starts. */
  predicate NoDelivery(run: seq<Action>) { forall a | a in run :: !a.Deliver? }

  lemma PotentialStep(s: Sys, a: Action)
    requires Enabled(s, a) && !a.Deliver?
    ensures Potential(Apply(s, a)) <= Potential(s)
    ensures !a.GenerationFails? && !a.Crash? ==> Potential(Apply(s, a)) == Potential(s)
  {
    var t := Apply(s, a);
    if !a.Start? && !a.Confirm? {
      RemoveMember(Live(s), a.w);
      assert Live(t) == if a.Generate? || a.RecordFailure? then Live(s) else Live(s) - {a.w};
    }
  }

  lemma DeliveryJoins(s: Sys, w: nat)
    requires Enabled(s, Deliver(w))
    ensures Live(Apply(s, Deliver(w))) == if s.bound == 0 && s.status == Planning then Live(s) + {w} else Live(s)
    ensures Apply(s, Deliver(w)).bound == s.bound && w !in Live(s)
  {
  }

  /** A delivery raises the potential, by one, exactly when the turn has no plan and is planning. */
  lemma DeliveryRaisesPotential(s: Sys, w: nat)
    requires Enabled(s, Deliver(w))
    ensures Potential(Apply(s, Deliver(w))) == Potential(s) + (if s.bound == 0 && s.status == Planning then 1 else 0)
  {
    DeliveryJoins(s, w);
    AddMember(Live(s), w);
    hide Live, Apply;
  }

  lemma {:induction false} PotentialBounds(s: Sys, run: seq<Action>)
    requires CanRun(s, run) && NoDelivery(run)
    ensures After(s, run).bound <= Potential(s)
    decreases |run|
  {
    if run != [] {
      assert run[0] in run;
      PotentialStep(s, run[0]);
      PotentialBounds(Apply(s, run[0]), run[1..]);
    }
  }

  lemma Before(s: Sys, a: Action, run: seq<Action>)
    requires Enabled(s, a) && CanRun(Apply(s, a), run) && !a.Deliver? && NoDelivery(run)
    ensures CanRun(s, [a] + run) && After(s, [a] + run) == After(Apply(s, a), run) && NoDelivery([a] + run)
    ensures Starts([a] + run) == (if a.Start? then 1 else 0) + Starts(run)
  {
    Prefix(s, a, Apply(s, a), run);
    assert ([a] + run)[1..] == run;
  }

  lemma SomeoneIsLive(s: Sys) returns (w: nat)
    requires |Live(s)| > 0
    ensures w in s.workers && s.workers[w].phase != Failing
  {
    w :| w in Live(s);
  }

  /** The deliveries under way can bind every plan they still hold. */
  lemma {:induction false} BindUpTo(s: Sys, n: nat) returns (run: seq<Action>)
    requires n <= Potential(s)
    ensures CanRun(s, run) && NoDelivery(run) && Starts(run) == 0 && After(s, run).bound >= n
    decreases n - s.bound, |StillGenerating(s)|
  {
    run := [];
    if s.bound < n {
      var w := SomeoneIsLive(s);
      var a := if s.workers[w].phase == Generating then Generate(w) else Bind(w);
      PotentialStep(s, a);
      var t := Apply(s, a);
      if a.Generate? { OneLessGenerating(s, w); }
      var rest := BindUpTo(t, n);
      Before(s, a, rest);
      run := [a] + rest;
    }
  }

  lemma OneLessGenerating(s: Sys, w: nat)
    requires Enabled(s, Generate(w))
    ensures |StillGenerating(Apply(s, Generate(w)))| < |StillGenerating(s)|
  {
    assert StillGenerating(Apply(s, Generate(w))) == StillGenerating(s) - {w};
    RemoveMember(StillGenerating(s), w);
  }

  /** The turn can end up with n plans without a further delivery. */
  ghost predicate CanBind(s: Sys, n: nat) {
    exists run :: CanRun(s, run) && NoDelivery(run) && After(s, run).bound >= n
  }

  /** From any state, without a further delivery: the turn can end up with n plans or more exactly when
      the plans it has and the deliveries that have not failed make n. */
  lemma CanBindExactly(s: Sys, n: nat)
    ensures CanBind(s, n) <==> Potential(s) >= n
  {
    if run :| CanRun(s, run) && NoDelivery(run) && After(s, run).bound >= n {
      PotentialBounds(s, run);
    }
    if Potential(s) >= n {
      var run := BindUpTo(s, n);
    }
  }

  /** Each delivery that is let through finds no plan and no other delivery that could still bind one;
      deliveries that are refused, and failing ones, may overlap at will. */
  predicate Spaced(s: Sys, run: seq<Action>)
    requires CanRun(s, run)
    decreases |run|
  {
    run == []
    || ((run[0].Deliver? && s.bound == 0 && s.status == Planning ==> Potential(s) == 0)
        && Spaced(Apply(s, run[0]), run[1..]))
  }

  /** At no point of the run could the deliveries then under way have given the turn two plans. */
  ghost predicate NeverTwo(s: Sys, run: seq<Action>)
    requires CanRun(s, run)
    decreases |run|
  {
    !CanBind(s, 2) && (run == [] || NeverTwo(Apply(s, run[0]), run[1..]))
  }

  /** Over a whole run two plans are never within reach, exactly when each delivery let through is so
      spaced. */
  lemma {:induction false} SpacedExactly(s: Sys, run: seq<Action>)
    requires CanRun(s, run) && Potential(s) <= 1
    ensures NeverTwo(s, run) <==> Spaced(s, run)
    ensures Spaced(s, run) ==> After(s, run).bound <= 1
    decreases |run|
  {
    CanBindExactly(s, 2);
    if run != [] {
      if run[0].Deliver? { DeliveryRaisesPotential(s, run[0].w); } else { PotentialStep(s, run[0]); }
      if Potential(Apply(s, run[0])) <= 1 {
        SpacedExactly(Apply(s, run[0]), run[1..]);
      } else {
        CanBindExactly(Apply(s, run[0]), 2);
      }
    }
  }

  /** A delivery that can still fail next to a plan or to another delivery that can still bind one. */
  predicate CanFailWithAPlan(s: Sys) {
    match s.status
    case PlanReview => false
    case Confirmed => false
    case PlanningFailed => Potential(s) > 0
    case _ => exists f | f in s.workers :: FailsBeside(s, f)
  }

  predicate FailsBeside(s: Sys, f: nat) {
    f in s.workers && s.workers[f].phase != Generated && (s.bound > 0 || Live(s) - {f} != {})
  }

  lemma BesideStep(s: Sys, a: Action, f: nat)
    requires Enabled(s, a) && !a.Deliver? && FailsBeside(Apply(s, a), f)
    ensures FailsBeside(s, f)
  {
    var t := Apply(s, a);
    assert f in s.workers && s.workers[f].phase != Generated;
    if a.Bind? {
      assert a.w in Live(s) - {f};
    } else if t.bound == 0 {
      var w :| w in Live(t) - {f};
      assert w in Live(s) - {f};
    }
  }

  lemma FailureStep(s: Sys, a: Action)
    requires Enabled(s, a) && !a.Deliver? && CanFailWithAPlan(Apply(s, a))
    ensures CanFailWithAPlan(s)
  {
    var t := Apply(s, a);
    PotentialStep(s, a);
    if t.status == Planning || t.status == Draft {
      var f :| f in t.workers && FailsBeside(t, f);
      BesideStep(s, a, f);
      BesidePotential(s, f);
    } else if s.status == Planning {
      FailedHere(s, a);
    }
    hide Potential, FailsBeside;
  }

  lemma BesidePotential(s: Sys, f: nat)
    requires FailsBeside(s, f)
    ensures f in s.workers && Potential(s) > 0
  {
    if s.bound == 0 {
      var w :| w in Live(s) - {f};
      RemoveMember(Live(s), w);
    }
  }

  lemma FailedHere(s: Sys, a: Action)
    requires Enabled(s, a) && s.status == Planning && Apply(s, a).status == PlanningFailed && Potential(Apply(s, a)) > 0
    ensures a.RecordFailure? && a.w in s.workers && FailsBeside(s, a.w)
  {
    assert a.RecordFailure? && Live(s) - {a.w} == Live(Apply(s, a));
  }

  /** The run ends with a failed turn that has a plan. */
  ghost predicate FailsWithAPlan(s: Sys, run: seq<Action>) {
    CanRun(s, run) && NoDelivery(run) && After(s, run).status == PlanningFailed && After(s, run).bound > 0
  }

  lemma {:induction false} FailureNeedsIt(s: Sys, run: seq<Action>)
    requires FailsWithAPlan(s, run)
    ensures CanFailWithAPlan(s)
    decreases |run|
  {
    if run != [] {
      assert run[0] in run;
      FailureNeedsIt(Apply(s, run[0]), run[1..]);
      FailureStep(s, run[0]);
    }
  }

  lemma FailedThenBound(s: Sys) returns (run: seq<Action>)
    requires s.status == PlanningFailed && Potential(s) > 0
    ensures FailsWithAPlan(s, run)
  {
    run := BindUpTo(s, 1);
    OutcomeIsFinal(s, run);
  }

  lemma FailThenBind(s: Sys, f: nat) returns (run: seq<Action>)
    requires s.status == Planning && FailsBeside(s, f)
    ensures FailsWithAPlan(s, run)
  {
    var s1 := if s.workers[f].phase == Generating then Apply(s, GenerationFails(f)) else s;
    assert Live(s1) == Live(s) - {f};
    var s2 := Apply(s1, RecordFailure(f));
    assert Live(s2) == Live(s1);
    var rest := FailedThenBound(s2);
    Before(s1, RecordFailure(f), rest);
    run := [RecordFailure(f)] + rest;
    if s.workers[f].phase == Generating {
      Before(s, GenerationFails(f), run);
      run := [GenerationFails(f)] + run;
    }
  }

  lemma StartBeside(s: Sys, f: nat)
    requires Enabled(s, Start) && FailsBeside(s, f)
    ensures Apply(s, Start).status == Planning && FailsBeside(Apply(s, Start), f)
  {
    assert Live(Apply(s, Start)) == Live(s);
  }

  lemma EndsFailed(s: Sys) returns (run: seq<Action>)
    requires CanFailWithAPlan(s)
    ensures FailsWithAPlan(s, run)
  {
    if s.status == PlanningFailed {
      run := FailedThenBound(s);
    } else {
      var f :| FailsBeside(s, f);
      if s.status == Planning {
        run := FailThenBind(s, f);
      } else {
        StartBeside(s, f);
        run := FailThenBind(Apply(s, Start), f);
        Before(s, Start, run);
        run := [Start] + run;
      }
    }
  }

  /** From any state, without a further delivery: the turn can end up failed and with a plan exactly when
      it has failed already and can get one, or has not yet had an outcome and some delivery can fail
      next to a plan or to another that can bind one. */
  lemma CanFailWithAPlanExactly(s: Sys)
    ensures (exists run :: FailsWithAPlan(s, run)) <==> CanFailWithAPlan(s)
  {
    if run :| FailsWithAPlan(s, run) { FailureNeedsIt(s, run); }
    if CanFailWithAPlan(s) { var run := EndsFailed(s); }
  }

  lemma Prefix(s: Sys, a: Action, t: Sys, run: seq<Action>)
    requires Enabled(s, a) && t == Apply(s, a) && CanRun(t, run)
    ensures CanRun(s, [a] + run) && After(s, [a] + run) == After(t, run)
  {
    assert ([a] + run)[1..] == run;
  }

  /** Two deliveries that both read the turn before either binds a plan. */
  function TwoUnderWay(): Sys {
    Sys(Planning, 1, 0, 0, map[1 := Worker(Generating, 1), 2 := Worker(Generating, 1)])
  }

  lemma TwoUnderWayReached()
    ensures var run := [Start, Deliver(1), Deliver(2)]; CanRun(Init, run) && After(Init, run) == TwoUnderWay()
  {
    var s1 := Apply(Init, Start);
    var s2 := Apply(s1, Deliver(1));
    var s3 := Apply(s2, Deliver(2));
    assert s3.workers == TwoUnderWay().workers;
    hide CanRun, After;
    Empty(s3);
    Prefix(s2, Deliver(2), s3, []);
    Prefix(s1, Deliver(1), s2, [Deliver(2)] + []);
    Prefix(Init, Start, s1, [Deliver(1)] + ([Deliver(2)] + []));
    assert [Start] + ([Deliver(1)] + ([Deliver(2)] + [])) == [Start, Deliver(1), Deliver(2)];
  }

  /** They give it two plans. */
  lemma OverlapBindsTwoPlans()
    ensures exists run :: CanRun(Init, run) && After(Init, run).bound == 2 && After(Init, run).status == PlanReview
  {
    var s1 := Apply(TwoUnderWay(), Generate(1));
    var s2 := Apply(s1, Generate(2));
    var s3 := Apply(s2, Bind(1));
    var s4 := Apply(s3, Bind(2));
    hide CanRun, After;
    TwoUnderWayReached();
    Empty(s4);
    Prefix(s3, Bind(2), s4, []);
    Prefix(s2, Bind(1), s3, [Bind(2)] + []);
    Prefix(s1, Generate(2), s2, [Bind(1)] + ([Bind(2)] + []));
    Prefix(TwoUnderWay(), Generate(1), s1, [Generate(2)] + ([Bind(1)] + ([Bind(2)] + [])));
    Concat(Init, [Start, Deliver(1), Deliver(2)], [Generate(1)] + ([Generate(2)] + ([Bind(1)] + ([Bind(2)] + []))));
  }

  lemma {:induction false} Concat(s: Sys, a: seq<Action>, b: seq<Action>)
    requires CanRun(s, a) && CanRun(After(s, a), b)
    ensures CanRun(s, a + b) && After(s, a + b) == After(After(s, a), b)
    decreases |a|
  {
    hide Apply, Enabled;
    if a == [] {
      assert a + b == b;
    } else {
      assert (a + b)[1..] == a[1..] + b;
      Concat(Apply(s, a[0]), a[1..], b);
    }
  }

  lemma Empty(s: Sys)
    ensures CanRun(s, []) && After(s, []) == s
  {
  }

  function OneFailed(): Sys { Sys(PlanningFailed, 1, 0, 0, map[1 := Worker(Generating, 1)]) }

  /** One of the two fails, and the turn with it. */
  lemma OneFailedReached() returns (run: seq<Action>)
    ensures CanRun(Init, run) && After(Init, run) == OneFailed()
  {
    var s1 := Apply(TwoUnderWay(), GenerationFails(2));
    var s2 := Apply(s1, RecordFailure(2));
    assert s2.workers == OneFailed().workers;
    hide CanRun, After;
    TwoUnderWayReached();
    Empty(s2);
    Prefix(s1, RecordFailure(2), s2, []);
    Prefix(TwoUnderWay(), GenerationFails(2), s1, [RecordFailure(2)] + []);
    run := [Start, Deliver(1), Deliver(2)] + ([GenerationFails(2)] + ([RecordFailure(2)] + []));
    Concat(Init, [Start, Deliver(1), Deliver(2)], [GenerationFails(2)] + ([RecordFailure(2)] + []));
  }

  /** One failing delivery next to a slower one that succeeds: the turn has failed and has a plan. */
  lemma OverlapFailsATurnWithAPlan()
    ensures exists run :: CanRun(Init, run) && After(Init, run).bound == 1 && After(Init, run).status == PlanningFailed
  {
    var run := OneFailedReached();
    var s1 := Apply(OneFailed(), Generate(1));
    var s2 := Apply(s1, Bind(1));
    hide CanRun, After;
    Empty(s2);
    Prefix(s1, Bind(1), s2, []);
    Prefix(OneFailed(), Generate(1), s1, [Bind(1)] + []);
    Concat(Init, run, [Generate(1)] + ([Bind(1)] + []));
  }

  /** If the user starts it again, the slower delivery of the first attempt can decide the second. */
  lemma EarlierAttemptDecidesLater()
    ensures exists run :: CanRun(Init, run) && After(Init, run).attempt == 2 && CanBeDecidedLate(After(Init, run))
  {
    var run := OneFailedReached();
    var s := Apply(OneFailed(), Start);
    assert s.workers[1].attempt == 1;
    CanBeDecidedLateExactly(s);
    hide CanRun, After, CanBeDecidedLate;
    Empty(s);
    Prefix(OneFailed(), Start, s, []);
    Concat(Init, run, [Start] + []);
  }

  // ---- The task ----

  class Turn {
    var status: Status
    var bound: nat

    constructor ()
      ensures status == Draft && bound == 0
    {
      status, bound := Draft, 0;
    }

    /** `start_planning`: a draft, or a turn whose planning has failed, enters planning. */
    method StartPlanning() returns (ok: bool)
      modifies this`status
      ensures ok == (old(status) == Draft || old(status) == PlanningFailed)
      ensures status == if ok then Planning else old(status)
    {
      ok := status == Draft || status == PlanningFailed;
      if ok { status := Planning; }
    }

    method UpdateStatus(expected: Status, next: Status) returns (ok: bool)
      modifies this`status
      ensures ok == (old(status) == expected)
      ensures status == if ok then next else old(status)
    {
      ok := status == expected;
      if ok { status := next; }
    }

    /** `generate_plan` without interference: what the step system does between a delivery and the end
        of its worker. */
    method GeneratePlan(serviceBuilt: bool, generated: bool)
      modifies this
      ensures var s := Sys(old(status), 0, 0, old(bound), map[]);
              && status == Delivered(s, serviceBuilt && generated).status
              && bound == Delivered(s, serviceBuilt && generated).bound
              && Delivered(s, serviceBuilt && generated).workers == map[]
    {
      if bound > 0 {
        if status == Planning { var _ := UpdateStatus(Planning, PlanReview); }
        return;
      }
      if status != Planning { return; }
      if !serviceBuilt || !generated {
        var _ := UpdateStatus(Planning, PlanningFailed);
        return;
      }
      bound := bound + 1;
      var _ := UpdateStatus(Planning, PlanReview);
    }
  }

  /** A delivery on its own, told by the steps. */
  function Delivered(s: Sys, generated: bool): Sys
    requires s.workers == map[]
  {
    var s1 := Apply(s, Deliver(0));
    if 0 !in s1.workers then s1
    else if generated then Apply(Apply(s1, Generate(0)), Bind(0))
    else Apply(Apply(s1, GenerationFails(0)), RecordFailure(0))
  }

  /** What a delivery on its own comes to: a planning turn without a plan gets one and goes to review, or
      fails; one that has a plan already goes to review, without another one; and any other turn is left
      alone. */
  lemma LoneDelivery(s: Sys, generated: bool)
    requires s.workers == map[]
    ensures Delivered(s, generated)
         == if s.status != Planning then s
            else if s.bound > 0 then s.(status := PlanReview)
            else if generated then s.(status := PlanReview, created := s.created + 1, bound := 1)
            else s.(status := PlanningFailed)
  {
    if s.status == Planning && s.bound == 0 {
      assert map[0 := Worker(Generated, s.attempt)] - {0} == map[];
      assert map[0 := Worker(Failing, s.attempt)] - {0} == map[];
    }
  }

  /** A plan that was bound is not lost: whatever else is under way, one delivery takes a planning turn
      that has a plan to review, and a start and one delivery take a draft or failed one there. */
  lemma BoundPlanIsReviewed(s: Sys, w: nat)
    requires s.bound > 0 && w !in s.workers
    ensures s.status == Planning ==>
      CanRun(s, [Deliver(w)]) && After(s, [Deliver(w)]) == s.(status := PlanReview)
    ensures s.status == Draft || s.status == PlanningFailed ==>
      && CanRun(s, [Start] + [Deliver(w)])
      && After(s, [Start] + [Deliver(w)]) == s.(status := PlanReview, attempt := s.attempt + 1)
  {
    var t := if s.status == Planning then s else s.(status := Planning, attempt := s.attempt + 1);
    var u := t.(status := PlanReview);
    Empty(u);
    Prefix(t, Deliver(w), u, []);
    assert [Deliver(w)] + [] == [Deliver(w)];
    if s.status == Draft || s.status == PlanningFailed { Prefix(s, Start, t, [Deliver(w)]); }
  }

  lemma Step(s: Sys, a: Action, goal: Sys, run: seq<Action>, end: Sys)
    requires Enabled(s, a) && Apply(s, a) == goal && CanRun(goal, run) && After(goal, run) == end
    ensures CanRun(s, [a] + run) && After(s, [a] + run) == end
  {
    Prefix(s, a, goal, run);
  }

  /** There is no dead end: from every state in which a reviewed turn has a plan, which is every state
      that a run reaches, the turn can still be confirmed, with a plan. */
  lemma CanBeConfirmed(s: Sys) returns (run: seq<Action>)
    requires HasPlanIfReviewed(s)
    ensures CanRun(s, run) && After(s, run).status == Confirmed && After(s, run).bound > 0
  {
    match s.status {
      case Confirmed =>
        run := [];
      case PlanReview =>
        run := Confirming(s);
      case Planning =>
        run := PlanningToConfirmed(s);
      case _ =>
        var rest := PlanningToConfirmed(Apply(s, Start));
        run := [Start] + rest;
        Prefix(s, Start, Apply(s, Start), rest);
    }
  }

  lemma Confirming(s: Sys) returns (run: seq<Action>)
    requires s.status == PlanReview && s.bound > 0
    ensures CanRun(s, run) && After(s, run) == s.(status := Confirmed)
  {
    Empty(s.(status := Confirmed));
    Step(s, Confirm, s.(status := Confirmed), [], s.(status := Confirmed));
    run := [Confirm] + [];
  }

  lemma PlanningToConfirmed(s: Sys) returns (run: seq<Action>)
    requires s.status == Planning
    ensures CanRun(s, run) && After(s, run).status == Confirmed && After(s, run).bound > 0
  {
    var w := Unused(s.workers.Keys);
    assert w !in s.workers;
    var s1 := Apply(s, Deliver(w));
    if s.bound > 0 {
      run := Confirming(s1);
    } else {
      var s2 := Apply(s1, Generate(w));
      var s3 := Apply(s2, Bind(w));
      run := Confirming(s3);
      Prefix(s2, Bind(w), s3, run);
      run := [Bind(w)] + run;
      Prefix(s1, Generate(w), s2, run);
      run := [Generate(w)] + run;
    }
    Prefix(s, Deliver(w), s1, run);
    run := [Deliver(w)] + run;
  }
}
