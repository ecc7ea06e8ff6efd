/** Budgets, the ledger a run tree shares, and the recursive execution of a tree of runs. */
module Budgets {
  import opened Wrappers

  const MAX_DEPTH: nat := 4

  datatype Budget = Budget(maxSteps: int, maxCost: Option<real>, maxSeconds: Option<int>, maxOutput: Option<int>)

  /** What a ledger holds at one moment. */
  datatype Spend = Spend(steps: nat, cost: real, unmetered: nat, cancelled: bool)

  datatype Stop = Cancelled | OutOfSteps | CostUnknown | OutOfMoney | OutOfTime

  /** Python's `int()`: truncation towards zero. */
  function Truncate(x: real): int {
    if x >= 0.0 then x.Floor else -((-x).Floor)
  }

  function Lesser(a: Option<real>, b: Option<real>): Option<real> {
    if a.None? then b
    else if b.None? then a
    else if b.value < a.value then b else a
  }

  function Min(a: int, b: int): int {
    if b < a then b else a
  }

  /** Why the tree may not spend again, in the order the ledger asks. */
  function Exhaustion(s: Spend, b: Budget, elapsed: real): Option<Stop> {
    if s.cancelled then Some(Cancelled)
    else if s.steps >= b.maxSteps then Some(OutOfSteps)
    else if b.maxCost.Some? && s.unmetered > 0 then Some(CostUnknown)
    else if b.maxCost.Some? && s.cost >= b.maxCost.value then Some(OutOfMoney)
    else if b.maxSeconds.Some? && elapsed >= b.maxSeconds.value as real then Some(OutOfTime)
    else None
  }

  function RemainingSeconds(b: Budget, elapsed: real): Option<int> {
    if b.maxSeconds.None? then None
    else
      var left := Truncate(b.maxSeconds.value as real - elapsed);
      Some(if left > 0 then left else 0)
  }

  function Declared(limit: Option<real>, spent: real): Option<real> {
    if limit.None? then None else Some(spent + limit.value)
  }

  function WholeSeconds(x: Option<int>): Option<real> {
    if x.None? then None else Some(x.value as real)
  }

  function Truncated(x: Option<real>): Option<int> {
    if x.None? then None else Some(Truncate(x.value))
  }

  /** The budget a child gets: ceilings the whole tree may reach, never past the parent's. */
  function NestedWithin(child: Budget, parent: Budget, s: Spend, elapsed: real): Budget {
    Budget(
      Min(parent.maxSteps, s.steps + child.maxSteps),
      Lesser(parent.maxCost, Declared(child.maxCost, s.cost)),
      Truncated(Lesser(WholeSeconds(parent.maxSeconds),
                       Declared(WholeSeconds(child.maxSeconds), Truncate(elapsed) as real))),
      if child.maxOutput.None? then parent.maxOutput
      else if parent.maxOutput.None? then child.maxOutput
      else Some(Min(parent.maxOutput.value, child.maxOutput.value)))
  }

  /** The ceilings of the runtime's configuration, counted from where the tree stands. */
  function Bounded(b: Budget, steps: Option<int>, output: Option<int>, s: Spend): Budget {
    if steps.None? && output.None? then b
    else b.(
      maxSteps := if steps.None? then b.maxSteps else Min(b.maxSteps, s.steps + steps.value),
      maxOutput :=
        if output.None? then b.maxOutput
        else if b.maxOutput.None? then output
        else Some(Min(b.maxOutput.value, output.value)))
  }

  // ----- what the ceilings mean -----

  lemma TruncatesTowardsZero(x: real)
    ensures x >= 0.0 ==> Truncate(x) as real <= x < Truncate(x) as real + 1.0
    ensures x <= 0.0 ==> Truncate(x) as real - 1.0 < x <= Truncate(x) as real
  {
  }

  /** The budget is asked in one order, so the reason given is the first that holds. */
  lemma ExhaustionTells(s: Spend, b: Budget, elapsed: real)
    ensures var out := s.steps >= b.maxSteps;
            var unknown := b.maxCost.Some? && s.unmetered > 0;
            var broke := b.maxCost.Some? && s.cost >= b.maxCost.value;
            var late := b.maxSeconds.Some? && elapsed >= b.maxSeconds.value as real;
            var stop := Exhaustion(s, b, elapsed);
            && (stop.None? <==> !s.cancelled && !out && !unknown && !broke && !late)
            && (stop == Some(Cancelled) <==> s.cancelled)
            && (stop == Some(OutOfSteps) <==> !s.cancelled && out)
            && (stop == Some(CostUnknown) <==> !s.cancelled && !out && unknown)
            && (stop == Some(OutOfMoney) <==> !s.cancelled && !out && !unknown && broke)
            && (stop == Some(OutOfTime) <==> !s.cancelled && !out && !unknown && !broke && late)
  {
  }

  /** At whatever state `s'` of the ledger and whatever time, a child that began at `s` may take a step
      exactly when its parent may and it has not used up what it declared itself: a ceiling the tree may
      reach, not what the parent has left. */
  lemma NestedAllowsWhatWasDeclared(child: Budget, parent: Budget, s: Spend, elapsed: real, s': Spend, elapsed': real)
    ensures Exhaustion(s', NestedWithin(child, parent, s, elapsed), elapsed').None? <==>
              && Exhaustion(s', parent, elapsed').None?
              && s'.steps - s.steps < child.maxSteps
              && (child.maxCost.Some? ==> s'.unmetered == 0 && s'.cost - s.cost < child.maxCost.value)
              && (child.maxSeconds.Some? ==> elapsed' < (Truncate(elapsed) + child.maxSeconds.value) as real)
    ensures var r := NestedWithin(child, parent, s, elapsed).maxOutput;
            LeastOf(r, parent.maxOutput, child.maxOutput)
  {
    NestedSeconds(child, parent, s, elapsed);
    hide Truncated, Truncate;
  }

  /** `r` is the lower of two ceilings, either of which may be missing. */
  predicate LeastOf(r: Option<int>, a: Option<int>, b: Option<int>) {
    && (r.None? <==> a.None? && b.None?)
    && (r.Some? ==> r in {a, b})
    && (a.Some? ==> r.value <= a.value)
    && (b.Some? ==> r.value <= b.value)
  }

  lemma NestedSeconds(child: Budget, parent: Budget, s: Spend, elapsed: real)
    ensures LeastOf(NestedWithin(child, parent, s, elapsed).maxSeconds, parent.maxSeconds,
                    if child.maxSeconds.None? then None else Some(Truncate(elapsed) + child.maxSeconds.value))
  {
  }

  /** The same for the ceilings of the runtime's configuration. */
  lemma BoundedAllowsWhatWasConfigured(b: Budget, steps: Option<int>, output: Option<int>, s: Spend, s': Spend,
                                       elapsed': real)
    ensures Exhaustion(s', Bounded(b, steps, output, s), elapsed').None? <==>
              && Exhaustion(s', b, elapsed').None?
              && (steps.Some? ==> s'.steps - s.steps < steps.value)
    ensures LeastOf(Bounded(b, steps, output, s).maxOutput, b.maxOutput, output)
  {
  }

  // ----- what a tree did -----

  /** One model call: the ledger just before it, the time of the check, the cost reported, and how deep
      in the tree its run sits. */
  datatype Step = Step(before: Spend, elapsed: real, cost: Option<real>, depth: nat)

  function Charged(s: Spend, cost: Option<real>): Spend {
    match cost
    case None => s.(steps := s.steps + 1, unmetered := s.unmetered + 1)
    case Some(usd) => s.(steps := s.steps + 1, cost := s.cost + if usd > 0.0 then usd else 0.0)
  }

  /** Cancellation is the only thing that may happen to a ledger between two steps. */
  predicate Follows(a: Spend, b: Spend) {
    b == a || b == a.(cancelled := true)
  }

  /** The steps account for everything between two states of the ledger. */
  predicate Accounts(from: Spend, steps: seq<Step>, to: Spend)
    decreases |steps|
  {
    if steps == [] then Follows(from, to)
    else Follows(from, steps[0].before) && Accounts(Charged(steps[0].before, steps[0].cost), steps[1..], to)
  }

  /** This budget allowed every one of the steps, at the moment it was taken. */
  predicate Allowed(steps: seq<Step>, b: Budget) {
    forall i | 0 <= i < |steps| :: Exhaustion(steps[i].before, b, steps[i].elapsed).None?
  }

  lemma {:induction false} AccountsAppend(from: Spend, first: seq<Step>, mid: Spend, second: seq<Step>, to: Spend)
    requires Accounts(from, first, mid) && Accounts(mid, second, to)
    ensures Accounts(from, first + second, to)
    decreases |first|
  {
    if first == [] {
      assert first + second == second;
    } else {
      AccountsAppend(Charged(first[0].before, first[0].cost), first[1..], mid, second, to);
      assert (first + second)[1..] == first[1..] + second;
    }
  }

  /** A budget that allows a step allows it under every enclosing budget too. */
  lemma NestedIsTighter(child: Budget, parent: Budget, s: Spend, elapsed: real, steps: seq<Step>)
    requires Allowed(steps, NestedWithin(child, parent, s, elapsed))
    ensures Allowed(steps, parent)
  {
    var nested := NestedWithin(child, parent, s, elapsed);
    forall i | 0 <= i < |steps|
      ensures Exhaustion(steps[i].before, parent, steps[i].elapsed).None?
    {
      assert Exhaustion(steps[i].before, nested, steps[i].elapsed).None?;
      if parent.maxSeconds.Some? {
        assert nested.maxSeconds.value <= parent.maxSeconds.value;
      }
    }
  }

  lemma BoundedIsTighter(b: Budget, ceiling: Option<int>, output: Option<int>, s: Spend, steps: seq<Step>)
    requires Allowed(steps, Bounded(b, ceiling, output, s))
    ensures Allowed(steps, b)
  {
    forall i | 0 <= i < |steps|
      ensures Exhaustion(steps[i].before, b, steps[i].elapsed).None?
    {
      assert Exhaustion(steps[i].before, Bounded(b, ceiling, output, s), steps[i].elapsed).None?;
    }
  }

  // ----- what that costs -----

  function Price(step: Step): real {
    if step.cost.Some? && step.cost.value > 0.0 then step.cost.value else 0.0
  }

  /** Spending under a budget stops at the ceiling: exactly in steps, by at most the one step that
      crossed it in money, and with the first unmetered step when money is capped. */
  lemma {:induction false} SpendIsBounded(from: Spend, steps: seq<Step>, to: Spend, b: Budget)
    requires Accounts(from, steps, to) && Allowed(steps, b)
    ensures to.steps == from.steps + |steps|
    ensures steps != [] ==> to.steps <= b.maxSteps && !from.cancelled
    ensures steps != [] && b.maxCost.Some? ==> to.cost - Price(steps[|steps| - 1]) < b.maxCost.value
    ensures steps != [] && b.maxCost.Some? ==> from.unmetered == 0 && to.unmetered <= 1
    ensures steps != [] && b.maxCost.Some? ==> (to.unmetered == 1 <==> steps[|steps| - 1].cost.None?)
    ensures steps == [] ==> to.cost == from.cost && to.unmetered == from.unmetered
    decreases |steps|
  {
    if steps != [] {
      var next := Charged(steps[0].before, steps[0].cost);
      assert Exhaustion(steps[0].before, b, steps[0].elapsed).None?;
      SpendIsBounded(next, steps[1..], to, b);
      if b.maxCost.Some? && |steps| > 1 {
        assert Exhaustion(steps[1].before, b, steps[1].elapsed).None?;
      }
    }
  }

  /** A child's whole subtree takes at most the steps the child declares. */
  lemma SubtreeTakesDeclaredSteps(child: Budget, parent: Budget, elapsed: real, from: Spend, steps: seq<Step>,
                                  to: Spend)
    requires Accounts(from, steps, to) && Allowed(steps, NestedWithin(child, parent, from, elapsed))
    ensures steps != [] ==> |steps| <= child.maxSteps && to.steps <= parent.maxSteps
  {
    SpendIsBounded(from, steps, to, NestedWithin(child, parent, from, elapsed));
  }

  /** Every step of a child is taken inside the seconds it declares, counted from where it began. */
  lemma StepsAreInTime(child: Budget, parent: Budget, s: Spend, elapsed: real, steps: seq<Step>)
    requires Allowed(steps, NestedWithin(child, parent, s, elapsed)) && child.maxSeconds.Some?
    ensures forall i | 0 <= i < |steps| :: steps[i].elapsed < (Truncate(elapsed) + child.maxSeconds.value) as real
  {
    var nested := NestedWithin(child, parent, s, elapsed);
    assert nested.maxSeconds.Some? && nested.maxSeconds.value <= Truncate(elapsed) + child.maxSeconds.value;
    forall i | 0 <= i < |steps|
      ensures steps[i].elapsed < (Truncate(elapsed) + child.maxSeconds.value) as real
    {
      assert Exhaustion(steps[i].before, nested, steps[i].elapsed).None?;
    }
  }

  // ----- the ledger and the runs -----

  /** What a run may spend and how deep it sits. */
  datatype Context = Context(budget: Budget, depth: nat)

  function ForChild(c: Context, child: Budget, s: Spend, elapsed: real): Context {
    Context(NestedWithin(child, c.budget, s, elapsed), c.depth + 1)
  }

  predicate TooDeep(c: Context) {
    c.depth >= MAX_DEPTH
  }

  /** The one account of a run tree, shared by reference. */
  class RunLedger {
    var steps: nat
    var cost: real
    var unmetered: nat
    var cancelled: bool
    ghost var log: seq<Step>

    constructor ()
      ensures Snapshot() == Spend(0, 0.0, 0, false) && log == []
    {
      steps, cost, unmetered, cancelled, log := 0, 0.0, 0, false, [];
    }

    function Snapshot(): Spend
      reads this
    {
      Spend(steps, cost, unmetered, cancelled)
    }

    method RecordSteps(n: int)
      modifies `steps
      ensures steps == old(steps) + if n > 0 then n else 0
    {
      steps := steps + if n > 0 then n else 0;
    }

    method RecordCost(usd: Option<real>)
      modifies `cost, `unmetered
      ensures usd.None? ==> unmetered == old(unmetered) + 1 && cost == old(cost)
      ensures usd.Some? ==>
                unmetered == old(unmetered) && cost == old(cost) + if usd.value > 0.0 then usd.value else 0.0
    {
      if usd.None? {
        unmetered := unmetered + 1;
        return;
      }
      cost := cost + if usd.value > 0.0 then usd.value else 0.0;
    }

    method Cancel()
      modifies `cancelled
      ensures cancelled
    {
      cancelled := true;
    }
  }

  /** Between two states of a ledger the tree took steps that `b` allowed one by one, and did
      nothing unaccounted for. */
  ghost predicate Spent(from: Spend, log: seq<Step>, to: Spend, log': seq<Step>, b: Budget) {
    && log <= log'
    && Accounts(from, log'[|log|..], to)
    && Allowed(log'[|log|..], b)
  }

  lemma SpentTwice(s0: Spend, log0: seq<Step>, s1: Spend, log1: seq<Step>, s2: Spend, log2: seq<Step>, b: Budget)
    requires Spent(s0, log0, s1, log1, b) && Spent(s1, log1, s2, log2, b)
    ensures Spent(s0, log0, s2, log2, b)
  {
    var first, second := log1[|log0|..], log2[|log1|..];
    assert log2[|log0|..] == first + second;
    AccountsAppend(s0, first, s1, second, s2);
  }

  lemma CancelSpends(s: Spend, log: seq<Step>, to: Spend, b: Budget)
    requires Follows(s, to)
    ensures Spent(s, log, to, log, b)
  {
    assert log[|log|..] == [];
  }

  lemma StepSpends(log: seq<Step>, step: Step, b: Budget)
    requires Exhaustion(step.before, b, step.elapsed).None?
    ensures Spent(step.before, log, Charged(step.before, step.cost), log + [step], b)
  {
    assert (log + [step])[|log|..] == [step];
  }

  /** How a run can end; the ledger tells the rest. */
  datatype Ending = Completed | Exhausted(why: Stop) | Awaiting | Failed | Refused

  /** The steps of the runs at this depth were allowed by `b` too; all others are of deeper runs. */
  predicate OwnSteps(steps: seq<Step>, depth: nat, b: Budget) {
    forall i | 0 <= i < |steps| ::
      steps[i].depth >= depth && (steps[i].depth == depth ==> Exhaustion(steps[i].before, b, steps[i].elapsed).None?)
  }

  lemma OwnStepsJoin(from: seq<Step>, log: seq<Step>, log': seq<Step>, depth: nat, b: Budget)
    requires from <= log <= log' && OwnSteps(log[|from|..], depth, b) && OwnSteps(log'[|log|..], depth, b)
    ensures OwnSteps(log'[|from|..], depth, b)
  {
    assert log'[|from|..] == log[|from|..] + log'[|log|..];
    hide Exhaustion;
  }

  lemma DeeperIsOwn(steps: seq<Step>, depth: nat, b: Budget)
    requires Deeper(steps, depth)
    ensures OwnSteps(steps, depth, b)
  {
  }

  /** All the steps are of runs below this depth. */
  predicate Deeper(steps: seq<Step>, depth: nat) {
    forall i | 0 <= i < |steps| :: steps[i].depth > depth
  }

  /** One turn, approved calls first.  The model's answers, their cost, the tools they call and the
      clock are arbitrary, and every call may be a subagent. */
  method Turn(ledger: RunLedger, context: Context, steps: Option<int>, output: Option<int>) returns (ending: Ending)
    modifies ledger
    ensures Spent(old(ledger.Snapshot()), old(ledger.log), ledger.Snapshot(), ledger.log, context.budget)
    ensures ledger.steps == old(ledger.steps) || ledger.steps <= context.budget.maxSteps
    ensures OwnSteps(ledger.log[|old(ledger.log)|..], context.depth,
                     Bounded(context.budget, steps, output, old(ledger.Snapshot())))
    ensures ending.Refused? <==> context.depth >= 4
    ensures ending.Refused? ==> ledger.log == old(ledger.log) && ledger.Snapshot() == old(ledger.Snapshot())
    ensures EndsRight(ending, ledger.Snapshot(), Bounded(context.budget, steps, output, old(ledger.Snapshot())))
    decreases MAX_DEPTH - context.depth, 3
  {
    var run := Bounded(context.budget, steps, output, ledger.Snapshot());
    forall more: seq<Step> | Allowed(more, run)
      ensures Allowed(more, context.budget)
    {
      BoundedIsTighter(context.budget, steps, output, ledger.Snapshot(), more);
    }
    if TooDeep(context) {
      return Refused;
    }
    Calls(ledger, context);
    label Resolved:
    ending := Loop(ledger, context, run);
    assert ledger.log[|old(ledger.log)|..] ==
           old@Resolved(ledger.log)[|old(ledger.log)|..] + ledger.log[|old@Resolved(ledger.log)|..];
    SpentTwice(old(ledger.Snapshot()), old(ledger.log), old@Resolved(ledger.Snapshot()), old@Resolved(ledger.log),
               ledger.Snapshot(), ledger.log, context.budget);
    SpendIsBounded(old(ledger.Snapshot()), ledger.log[|old(ledger.log)|..], ledger.Snapshot(), context.budget);
  }

  /** A run stops for its budget only when that is spent, and for the reason it gives. */
  ghost predicate EndsRight(ending: Ending, s: Spend, b: Budget) {
    ending.Exhausted? ==> exists elapsed: real :: Exhaustion(s, b, elapsed) == Some(ending.why)
  }

  /** The step loop: the budget is asked before every step, never after. */
  method Loop(ledger: RunLedger, context: Context, run: Budget) returns (ending: Ending)
    requires forall more: seq<Step> | Allowed(more, run) :: Allowed(more, context.budget)
    requires context.depth < MAX_DEPTH
    modifies ledger
    ensures Spent(old(ledger.Snapshot()), old(ledger.log), ledger.Snapshot(), ledger.log, context.budget)
    ensures OwnSteps(ledger.log[|old(ledger.log)|..], context.depth, run)
    ensures !ending.Refused? && EndsRight(ending, ledger.Snapshot(), run)
    ensures ending.Completed? || ending.Awaiting? ==> |ledger.log| > |old(ledger.log)|
    decreases MAX_DEPTH - context.depth, 2
  {
    hide Accounts, Allowed, OwnSteps;
    ghost var from, log := ledger.Snapshot(), ledger.log;
    CancelSpends(from, log, from, context.budget);
    assert OwnSteps(log[|log|..], context.depth, run) by {
      DeeperIsOwn(log[|log|..], context.depth, run);
    }
    while true
      invariant Spent(from, log, ledger.Snapshot(), ledger.log, context.budget)
      invariant OwnSteps(ledger.log[|log|..], context.depth, run)
      decreases run.maxSteps - ledger.steps
    {
      ghost var s0, log0 := ledger.Snapshot(), ledger.log;
      var cancelled, elapsed: real := *, *;
      if cancelled {
        ledger.Cancel();
      }
      ghost var checked := ledger.Snapshot();
      CancelSpends(s0, log0, checked, context.budget);
      SpentTwice(from, log, s0, log0, checked, log0, context.budget);
      var stop := Exhaustion(ledger.Snapshot(), run, elapsed);
      if stop.Some? {
        return Exhausted(stop.value);
      }
      var answered, cost: Option<real>, failed, calls, gated := *, *, *, *, *;
      if !answered {
        return Failed;
      }
      ledger.RecordSteps(1);
      ledger.RecordCost(cost);
      ghost var step := Step(checked, elapsed, cost, context.depth);
      ledger.log := ledger.log + [step];
      OneMoreStep(from, log, log0, step, context, run);
      if failed {
        return Failed;
      }
      if !calls {
        return Completed;
      }
      ghost var s1, log1 := ledger.Snapshot(), ledger.log;
      Calls(ledger, context);
      SpentTwice(from, log, s1, log1, ledger.Snapshot(), ledger.log, context.budget);
      DeeperIsOwn(ledger.log[|log1|..], context.depth, run);
      OwnStepsJoin(log, log1, ledger.log, context.depth, run);
      if gated {
        return Awaiting;
      }
    }
  }

  /** A step the run's own budget allowed, behind what was spent before it. */
  lemma OneMoreStep(from: Spend, log: seq<Step>, log0: seq<Step>, step: Step, context: Context, run: Budget)
    requires forall more: seq<Step> | Allowed(more, run) :: Allowed(more, context.budget)
    requires Exhaustion(step.before, run, step.elapsed).None? && step.depth == context.depth
    requires Spent(from, log, step.before, log0, context.budget) && OwnSteps(log0[|log|..], context.depth, run)
    ensures Spent(from, log, Charged(step.before, step.cost), log0 + [step], context.budget)
    ensures OwnSteps((log0 + [step])[|log|..], context.depth, run)
  {
    assert Allowed([step], run);
    assert Allowed([step], context.budget);
    assert Exhaustion([step][0].before, context.budget, [step][0].elapsed).None?;
    StepSpends(log0, step, context.budget);
    SpentTwice(from, log, step.before, log0, Charged(step.before, step.cost), log0 + [step], context.budget);
    assert (log0 + [step])[|log|..] == log0[|log|..] + [step];
    hide Exhaustion;
  }

  /** The tool calls of one step, any of which may run a subagent with any declared budget. */
  method Calls(ledger: RunLedger, context: Context)
    requires context.depth < MAX_DEPTH
    modifies ledger
    ensures Spent(old(ledger.Snapshot()), old(ledger.log), ledger.Snapshot(), ledger.log, context.budget)
    ensures ledger.steps >= old(ledger.steps) && Deeper(ledger.log[|old(ledger.log)|..], context.depth)
    decreases MAX_DEPTH - context.depth, 1
  {
    var i, count: int := 0, *;
    ghost var from, log := ledger.Snapshot(), ledger.log;
    while i < count
      invariant Spent(from, log, ledger.Snapshot(), ledger.log, context.budget)
      invariant Deeper(ledger.log[|log|..], context.depth)
    {
      var subagent, declared: Budget, steps: Option<int>, output: Option<int> := *, *, *, *;
      if subagent {
        ghost var s0, log0 := ledger.Snapshot(), ledger.log;
        var ending, asked, began := RunSubagent(ledger, context, declared, steps, output);
        SpentTwice(from, log, s0, log0, ledger.Snapshot(), ledger.log, context.budget);
        assert ledger.log[|log|..] == log0[|log|..] + ledger.log[|log0|..];
      }
      i := i + 1;
    }
    SpendIsBounded(from, ledger.log[|log|..], ledger.Snapshot(), context.budget);
  }

  /** The recursive edge of the run tree: the child draws on the same ledger.  The parent's budget is
      asked at `asked`, and the child's counts from `began`; `steps` and `output` are the ceilings of the
      child's configuration. */
  method RunSubagent(ledger: RunLedger, context: Context, declared: Budget, steps: Option<int>, output: Option<int>)
    returns (ending: Ending, ghost asked: real, ghost began: real)
    requires context.depth < MAX_DEPTH
    modifies ledger
    ensures Spent(old(ledger.Snapshot()), old(ledger.log), ledger.Snapshot(), ledger.log, context.budget)
    ensures Spent(old(ledger.Snapshot()), old(ledger.log), ledger.Snapshot(), ledger.log,
                  NestedWithin(declared, context.budget, old(ledger.Snapshot()), began))
    ensures ending.Refused? <==>
              Exhaustion(old(ledger.Snapshot()), context.budget, asked).Some? || context.depth + 1 >= 4
    ensures ending.Refused? ==> ledger.log == old(ledger.log) && ledger.Snapshot() == old(ledger.Snapshot())
    ensures var nested := NestedWithin(declared, context.budget, old(ledger.Snapshot()), began);
            EndsRight(ending, ledger.Snapshot(), Bounded(nested, steps, output, old(ledger.Snapshot())))
    ensures Deeper(ledger.log[|old(ledger.log)|..], context.depth)
    ensures ledger.steps - old(ledger.steps) <= if declared.maxSteps > 0 then declared.maxSteps else 0
    ensures |ledger.log| > |old(ledger.log)| && declared.maxCost.Some? ==>
              ledger.cost - Price(ledger.log[|ledger.log| - 1]) < old(ledger.cost) + declared.maxCost.value
    ensures declared.maxSeconds.Some? ==>
              forall k | |old(ledger.log)| <= k < |ledger.log| ::
                ledger.log[k].elapsed < (Truncate(began) + declared.maxSeconds.value) as real
    decreases MAX_DEPTH - context.depth, 0
  {
    var elapsed: real, later: real := *, *;
    asked, began := elapsed, later;
    ghost var from, log := ledger.Snapshot(), ledger.log;
    var stop := Exhaustion(ledger.Snapshot(), context.budget, elapsed);
    if stop.Some? {
      return Refused, asked, began;
    }
    var child := ForChild(context, declared, ledger.Snapshot(), later);
    if TooDeep(child) {
      return Refused, asked, began;
    }
    ending := Turn(ledger, child, steps, output);
    SubtreeIsBounded(declared, context.budget, later, from, log, ledger.Snapshot(), ledger.log);
  }

  /** What a whole subtree spent, from where its child began. */
  lemma SubtreeIsBounded(declared: Budget, parent: Budget, began: real, from: Spend, log: seq<Step>, to: Spend,
                         log': seq<Step>)
    requires Spent(from, log, to, log', NestedWithin(declared, parent, from, began))
    ensures Spent(from, log, to, log', parent)
    ensures to.steps - from.steps <= if declared.maxSteps > 0 then declared.maxSteps else 0
    ensures |log'| > |log| && declared.maxCost.Some? ==>
              to.cost - Price(log'[|log'| - 1]) < from.cost + declared.maxCost.value
    ensures declared.maxSeconds.Some? ==>
              forall k | |log| <= k < |log'| ::
                log'[k].elapsed < (Truncate(began) + declared.maxSeconds.value) as real
  {
    var steps := log'[|log|..];
    SubtreeTakesDeclaredSteps(declared, parent, began, from, steps, to);
    SpendIsBounded(from, steps, to, NestedWithin(declared, parent, from, began));
    NestedIsTighter(declared, parent, from, began, steps);
    if declared.maxSeconds.Some? {
      StepsAreInTime(declared, parent, from, began, steps);
    }
    hide Accounts, Allowed;
    assert forall k | |log| <= k < |log'| :: log'[k] == steps[k - |log|];
  }
}
