/** Which commands of hdl/drv8825.vhd end: for every direction, position and target, absolute or
    relative, with a maximum M loaded and one unit per step. */
module CommandEnds {
  import opened Drv8825
  import opened StepClock
  import opened RelativeCommand
  import opened WrapAround
  import opened WrappingCommand

  /** The command is given up within the run. */
  ghost predicate GivesUpWithin(s: Regs, ins: seq<Ctrl>) {
    exists k :: 1 <= k <= |ins| && Exec(s, ins[..k]).motor.buf == Idle
  }

  /** The targets at which a command from position x is given up. */
  predicate EndsAt(x: Word30, target: Word30, up: bool, m: Word30) {
    || target == x
    || (if up then x < target <= 1 || 2 <= target <= m + 1 else target <= m - 1 || target == WORD30 - 1)
  }

  lemma NotWithin(s: Regs, ins: seq<Ctrl>)
    requires forall k :: 1 <= k <= |ins| ==> Exec(s, ins[..k]).motor.buf == Command
    ensures !GivesUpWithin(s, ins)
  {
    hide Tick;
  }

  lemma Within(s: Regs, ins: seq<Ctrl>, k: nat)
    requires 1 <= k <= |ins| && Exec(s, ins[..k]).motor.buf == Idle
    ensures GivesUpWithin(s, ins)
  {
    hide Tick;
  }

  // ---------------------------------------------------------------------------------
  // A target that is the present position
  // ---------------------------------------------------------------------------------

  lemma DeliveredMeansIdle(s: Regs, p: Plan, ins: seq<Ctrl>, u: nat)
    requires Delivers(s, p, 0, ins, u)
    ensures u + 2 <= |ins| && Exec(s, ins[..u]).motor.buf == Idle
  {
    hide Tick;
  }

  lemma DeliveredWithin(s: Regs, p: Plan, ins: seq<Ctrl>, u: nat)
    requires ins != [] && Delivers(Tick(s, ins[0]), p, 0, ins[1..], u)
    ensures GivesUpWithin(s, ins)
  {
    DeliveredMeansIdle(Tick(s, ins[0]), p, ins[1..], u);
    hide *;
    UnfoldRun(s, ins, u + 1);
    Within(s, ins, u + 1);
  }

  /** The command is not given up before it is accepted. */
  lemma TooSoonIsLater(s: Regs, p: Plan, ins: seq<Ctrl>, u: nat)
    requires Accepts(s, p) && |ins| >= 4 && u <= 3 && Exec(s, ins[..u + 1]).position != p.start
    ensures u >= 1
  {
    if u == 0 {
      assert ins[1..][..0] == [];
      UnfoldRun(s, ins, 1);
      IdleCountsNothing(s, ins[0]);
    }
  }
  lemma GivenUpAtOnce(s: Regs, p: Plan, ins: seq<Ctrl>)
    requires p.period >= 3 && p.count == 0 && p.delta >= 1
    requires Accepts(s, p) && Aims(s, p) && s.backlash.period == p.period
    requires AllQuiet(ins, p) && |ins| >= p.period + 9
    requires !ins[0].loadStrobe && !ins[0].maxStrobe && !ins[1].loadStrobe
    ensures GivesUpWithin(s, ins)
  {
    hide *;
    var u := ZeroSteps(s, p, ins);
    if ToRise(s.clock, p.period) == 2 {
      Within(s, ins, 2);
    } else {
      DeliveredWithin(s, p, ins, u);
    }
  }

  lemma GivenUpAtNewSpeed(s: Regs, p: Plan, ins: seq<Ctrl>)
    requires p.period >= 3 && p.count == 0 && p.delta >= 1
    requires Accepts(s, p) && Aims(s, p) && s.backlash.period != p.period
    requires AllQuiet(ins, p) && |ins| >= p.period + 9
    requires !ins[0].loadStrobe && !ins[0].maxStrobe && !ins[1].loadStrobe
    ensures GivesUpWithin(s, ins)
  {
    hide *;
    var u := ZeroStepsNewSpeed(s, p, ins);
    if RisesTooSoon(s.clock, s.backlash.period) {
      TooSoonIsLater(s, p, ins, u);
      Within(s, ins, u);
    } else {
      DeliveredWithin(s, p, ins, u);
    }
  }

  function EmptyPlan(s: Regs, g: Aim): Plan {
    Plan(s.position, g.up, 1, 0, g.period, g.isTmc)
  }

  lemma NothingToDo(s: Regs, g: Aim, ins: seq<Ctrl>)
    requires Ready(s, g) && g.target == s.position && AllCalm(ins, g)
    ensures Accepts(s, EmptyPlan(s, g)) && Aims(s, EmptyPlan(s, g)) && AllQuiet(ins, EmptyPlan(s, g))
  {
  }

  lemma CalmFacts(ins: seq<Ctrl>, g: Aim)
    requires AllCalm(ins, g) && |ins| >= 2
    ensures !ins[0].loadStrobe && !ins[0].maxStrobe && !ins[1].loadStrobe
  {
  }

  lemma AlreadyThere(s: Regs, g: Aim, ins: seq<Ctrl>)
    requires Ready(s, g) && g.target == s.position && AllCalm(ins, g) && |ins| >= g.period + 9 && g.period >= 3
    ensures GivesUpWithin(s, ins)
  {
    hide *;
    NothingToDo(s, g, ins);
    CalmFacts(ins, g);
    var p := EmptyPlan(s, g);
    PlanIs(s, g);
    if s.backlash.period == p.period {
      GivenUpAtOnce(s, p, ins);
    } else {
      GivenUpAtNewSpeed(s, p, ins);
    }
  }

  lemma PlanIs(s: Regs, g: Aim)
    ensures var p := EmptyPlan(s, g); p.period == g.period && p.count == 0 && p.delta == 1
  {
  }

  // ---------------------------------------------------------------------------------
  // A target that is met
  // ---------------------------------------------------------------------------------

  lemma NoMoreThanM(g: Aim, x: Word30)
    requires Meets(g, x) && x <= g.m
    ensures Remaining(g, x) <= g.m + 1
  {
  }

  lemma Arrives(s: Regs, g: Aim, ins: seq<Ctrl>)
    requires Begins(s, g) && AllCalm(ins, g) && |ins| >= Cycles(g.m + 4, g.period) + g.period + 9
    ensures GivesUpWithin(s, ins)
  {
    AtBegin(s, g);
    NoMoreThanM(g, s.position);
    hide *;
    LimitIs(g, s.position);
    CyclesGrow(Remaining(g, s.position) + 3, g.m + 4, g.period);
    var u := StepsOverTheEnd(s, g, ins);
    EndedWithin(s, g, ins, u);
  }

  lemma EndedWithin(s: Regs, g: Aim, ins: seq<Ctrl>, u: nat)
    requires ins != [] && 2 <= g.m
    requires Ends(Tick(s, ins[0]), ins[1..], u, Remaining(g, s.position), g.target, Rest(g))
    ensures GivesUpWithin(s, ins)
  {
    hide Tick;
    assert u + 2 <= |ins[1..]| && Exec(Tick(s, ins[0]), ins[1..][..u]).motor.buf == Idle;
    UnfoldRun(s, ins, u + 1);
    Within(s, ins, u + 1);
  }

  // ---------------------------------------------------------------------------------
  // A target out of reach
  // ---------------------------------------------------------------------------------

  /** The motor runs in one-unit steps and will not take up backlash. */
  predicate OneUnit(s: Regs, g: Aim) {
    && DeltaOf(s.motor.mode, g.isTmc) == 1 && DeltaOf(s.pipe.modeBuf, g.isTmc) == 1
    && DeltaOf(s.backlash.modeOut, g.isTmc) == 1 && NoBacklash(s)
  }

  ghost predicate OnTheWay(s: Regs, g: Aim) {
    Chasing(s, g.m) && s.motor.buf == Command && OneUnit(s, g)
  }

  lemma OneUnitTick(s: Regs, g: Aim, i: Ctrl)
    requires OneUnit(s, g) && Calm(i, g) && s.motor.buf == Command
    ensures Tick(s, i).delta == 1 && OneUnit(Tick(s, i), g)
  {
    hide NextLoader, NextClock, NextPosition;
  }

  lemma {:induction false} StaysOnTheWay(s: Regs, g: Aim, ins: seq<Ctrl>)
    requires OnTheWay(s, g) && AllCalm(ins, g)
    ensures Exec(s, ins).motor.buf == Command
    decreases |ins|
  {
    hide Chasing, OneUnit, Tick;
    if ins != [] {
      CalmAllows(ins[0], g);
      OneUnitTick(s, g, ins[0]);
      ChasingTick(s, g.m, ins[0]);
      StaysOnTheWay(Tick(s, ins[0]), g, ins[1..]);
    }
  }

  lemma CalmAllows(i: Ctrl, g: Aim)
    requires Calm(i, g)
    ensures Allowed(i, g.m) && !i.loadStrobe && !i.cancel
  {
  }

  lemma SetsOut(s: Regs, g: Aim, i: Ctrl)
    requires Ready(s, g) && Calm(i, g) && OutOfReach(s.position, g.target, g.up, g.m)
    ensures OnTheWay(Tick(s, i), g)
  {
    AcceptedCommand(s, i);
    AcceptedModes(s, g, i);
    RangeTick(s, g.m, i);
    StaysNormal(s, g.m, i);
    hide Tick, InRange, OutOfReach, OneUnit;
  }

  lemma AcceptedModes(s: Regs, g: Aim, i: Ctrl)
    requires Ready(s, g) && Calm(i, g)
    ensures Tick(s, i).delta == 1 && OneUnit(Tick(s, i), g)
  {
    hide NextLoader, NextClock, NextPosition, InRange, RelativeTarget;
  }

  lemma NeverArrives(s: Regs, g: Aim, ins: seq<Ctrl>)
    requires Ready(s, g) && AllCalm(ins, g) && OutOfReach(s.position, g.target, g.up, g.m)
    ensures !GivesUpWithin(s, ins)
  {
    hide *;
    forall k | 1 <= k <= |ins| ensures Exec(s, ins[..k]).motor.buf == Command {
      UnfoldRun(s, ins, k);
      CalmParts(ins, g);
      CalmPrefix(ins[1..], g, k - 1);
      SetsOut(s, g, ins[0]);
      StaysOnTheWay(Tick(s, ins[0]), g, ins[1..][..k - 1]);
    }
    NotWithin(s, ins);
  }

  lemma CalmPrefix(ins: seq<Ctrl>, g: Aim, k: nat)
    requires AllCalm(ins, g) && k <= |ins|
    ensures AllCalm(ins[..k], g)
  {
  }

  // ---------------------------------------------------------------------------------
  // Exactly these
  // ---------------------------------------------------------------------------------

  lemma ThreeCases(s: Regs, g: Aim)
    requires Ready(s, g)
    ensures g.period >= 3 && 2 <= g.m
    ensures s.position != g.target && EndsAt(s.position, g.target, g.up, g.m) ==> Begins(s, g)
    ensures !EndsAt(s.position, g.target, g.up, g.m) ==> OutOfReach(s.position, g.target, g.up, g.m)
    ensures s.position == g.target ==> EndsAt(s.position, g.target, g.up, g.m)
  {
  }

  /** Every accepted command, absolute or relative, in either direction, to any 30-bit target, from
      any position in 0..M and any earlier speed, with period P >= 3 and neither cancel nor outside
      load: it is given up within bounded time if and only if its target is the present position,
      or, going up, 1 from 0 or one of 2..M + 1, or, going down, one of 0..M - 1 or 2^30 - 1. */
  lemma GivenUpExactlyThere(s: Regs, g: Aim, ins: seq<Ctrl>)
    requires Ready(s, g) && AllCalm(ins, g) && |ins| >= Cycles(g.m + 4, g.period) + g.period + 9
    ensures GivesUpWithin(s, ins) <==> EndsAt(s.position, g.target, g.up, g.m)
  {
    hide *;
    ThreeCases(s, g);
    if !EndsAt(s.position, g.target, g.up, g.m) {
      NeverArrives(s, g, ins);
    } else if s.position == g.target {
      CyclesArePositive(g.m + 4, g.period);
      AlreadyThere(s, g, ins);
    } else {
      Arrives(s, g, ins);
    }
  }

  /** A target just outside the range is met there, and then the position is replaced after all. */
  lemma EndsOutside(s: Regs, g: Aim, ins: seq<Ctrl>) returns (u: nat)
    requires Begins(s, g) && AllCalm(ins, g) && ins != [] && |ins| >= Limit(g, s.position) + 5
    requires g.target == if g.up then g.m + 1 else WORD30 - 1
    ensures Ends(Tick(s, ins[0]), ins[1..], u, if g.up then g.m + 1 - s.position else s.position + 1,
                 g.target, if g.up then 2 else g.m - 1)
  {
    OutsideFacts(s, g);
    hide *;
    u := StepsOverTheEnd(s, g, ins);
  }

  lemma OutsideFacts(s: Regs, g: Aim)
    requires Begins(s, g) && g.target == if g.up then g.m + 1 else WORD30 - 1
    ensures Remaining(g, s.position) == if g.up then g.m + 1 - s.position else s.position + 1
    ensures 2 <= g.m && Rest(g) == if g.up then 2 else g.m - 1
  {
  }

  // ---------------------------------------------------------------------------------
  // Relative commands
  // ---------------------------------------------------------------------------------

  /** The lengths n for which a relative command ends, sums beyond 30 bits included. */
  predicate RelativeEnds(x: Word30, n: Word30, up: bool, m: Word30) {
    var sum := (x + n) % WORD30;
    if up then
      || sum == x || 2 <= sum <= m || m + 2 <= sum <= 2 * m + 1
      || (x <= 1 && (sum == 1 || sum == m + 1))
    else n < x || (n == x == m) || x < n <= x + m + 1
  }

  lemma RelativeTargets(x: Word30, n: Word30, up: bool, m: Word30)
    requires 2 <= m <= WORD30 - 3 && x <= m
    ensures EndsAt(x, RelativeTarget(x, n, up, m), up, m) <==> RelativeEnds(x, n, up, m)
  {
  }

  lemma RelativeTargetOf(s: Regs, g: Aim)
    requires Ready(s, g) && !s.settings.goto
    ensures g.target == RelativeTarget(s.position, s.settings.duration, g.up, g.m)
    ensures 2 <= g.m <= WORD30 - 3 && s.position <= g.m
  {
  }

  /** Every relative command. */
  lemma RelativeGivenUp(s: Regs, g: Aim, ins: seq<Ctrl>)
    requires Ready(s, g) && !s.settings.goto
    requires AllCalm(ins, g) && |ins| >= Cycles(g.m + 4, g.period) + g.period + 9
    ensures GivesUpWithin(s, ins) <==> RelativeEnds(s.position, s.settings.duration, g.up, g.m)
  {
    hide *;
    RelativeTargetOf(s, g);
    RelativeTargets(s.position, s.settings.duration, g.up, g.m);
    GivenUpExactlyThere(s, g, ins);
  }

  /** The steps of a relative command that ends: its length, less one for the reload of 2 going up,
      less M when it asks for a whole round, less what a sum beyond 30 bits loses. */
  function RelativeCount(x: Word30, n: Word30, up: bool, m: Word30): int {
    if up && x + n >= WORD30 then n - 1 - (WORD30 - m)
    else if up && x + n > m then if n >= m then n - m else n - 1
    else if !up && n >= m then n - m
    else n
  }

  lemma RelativeRemaining(s: Regs, g: Aim)
    requires Begins(s, g) && !s.settings.goto
    ensures 2 <= g.m
    ensures Remaining(g, s.position) == RelativeCount(s.position, s.settings.duration, g.up, g.m)
  {
    RelativeTargetOf(s, g);
    MetByRelative(s, g);
    hide *;
    CountedAs(g, s.position, s.settings.duration);
  }

  lemma MetByRelative(s: Regs, g: Aim)
    requires Begins(s, g)
    ensures Meets(g, s.position) && s.position != g.target && s.position <= g.m && 2 <= g.m
  {
  }

  lemma CountedAs(g: Aim, x: Word30, n: Word30)
    requires Meets(g, x) && x != g.target && x <= g.m && 2 <= g.m && g.target == RelativeTarget(x, n, g.up, g.m)
    ensures Remaining(g, x) == RelativeCount(x, n, g.up, g.m)
  {
  }

  /** Every relative command that ends away from where it starts. */
  lemma RelativeCounts(s: Regs, g: Aim, ins: seq<Ctrl>) returns (u: nat)
    requires Begins(s, g) && !s.settings.goto && AllCalm(ins, g) && ins != [] && |ins| >= Limit(g, s.position) + 5
    ensures 2 <= g.m
    ensures Ends(Tick(s, ins[0]), ins[1..], u, RelativeCount(s.position, s.settings.duration, g.up, g.m),
                 g.target, Rest(g))
  {
    hide *;
    RelativeRemaining(s, g);
    AtBegin(s, g);
    LimitIs(g, s.position);
    u := StepsOverTheEnd(s, g, ins);
  }

  /** A relative command down by exactly the present position is given up if and only if that
      position is M. */
  lemma DownByPosition(s: Regs, g: Aim, ins: seq<Ctrl>)
    requires Ready(s, g) && !s.settings.goto && !g.up && s.settings.duration == s.position
    requires AllCalm(ins, g) && |ins| >= Cycles(g.m + 4, g.period) + g.period + 9
    ensures GivesUpWithin(s, ins) <==> s.position == g.m
  {
    RelativeGivenUp(s, g, ins);
  }
}
