/** Parking with hdl/drv8825.vhd: a park runs like a command to position 0, tick for tick, and makes
    exactly as many counted steps. */
module Parking {
  import opened Drv8825
  import opened StepClock
  import opened RelativeCommand

  function AsCommand(m: MotorState): MotorState {
    if m == Park then Command else m
  }

  /** c executes as a command what s executes as a park. */
  predicate Alike(s: Regs, c: Regs) {
    && s.delta == c.delta && s.trigger == c.trigger && s.clock == c.clock && s.backlash == c.backlash
    && s.pipe == c.pipe && s.slack == c.slack && s.loader == c.loader && s.position == c.position
    && (s.motor.state == Idle || s.motor.state == Park) && (s.motor.buf == Idle || s.motor.buf == Park)
    && c.motor.state == AsCommand(s.motor.state) && c.motor.buf == AsCommand(s.motor.buf)
    && !s.settings.cancel && !c.settings.cancel
  }

  /** What the two aim at. */
  predicate SameAim(s: Regs, c: Regs) {
    && s.motor.direction == c.motor.direction && s.motor.mode == c.motor.mode
    && s.motor.speed == c.motor.speed && s.motor.target == c.motor.target
  }

  lemma SameCounter(s: Regs, c: Regs, i: Ctrl)
    requires Alike(s, c) && SameAim(s, c)
    ensures var t, d := Tick(s, i), Tick(c, i);
            && t.delta == d.delta && t.trigger == d.trigger && t.clock == d.clock && t.backlash == d.backlash
            && t.pipe == d.pipe && t.slack == d.slack && t.loader == d.loader && t.position == d.position
    ensures StepCounted(s, i) <==> StepCounted(c, i)
  {
    SameLoader(s.loader, i, s.motor.state, s.backlash.state, s.clock.step, s.position);
    hide NextMotor, NextClock, NextBacklash, NextSettings, NextLoader, NextPosition, NextSlack;
  }

  lemma SameLoader(l: Loader, i: Ctrl, m: MotorState, b: BacklashState, step: bool, position: Word30)
    requires m == Idle || m == Park
    ensures NextLoader(l, i, m, b, step, position) == NextLoader(l, i, AsCommand(m), b, step, position)
  {
  }

  lemma SameMotor(s: Regs, c: Regs, i: Ctrl)
    requires Alike(s, c) && SameAim(s, c) && s.motor.buf == Park && !i.cancel
    ensures var m, n := Tick(s, i).motor, Tick(c, i).motor;
            && m.state == Park && n.state == Command
            && (m.buf == Idle || m.buf == Park) && n.buf == AsCommand(m.buf)
            && m.direction == n.direction && m.mode == n.mode && m.speed == n.speed && m.target == n.target
    ensures !Tick(s, i).settings.cancel && !Tick(c, i).settings.cancel
  {
    Holds(s, i);
    Holds(c, i);
    NoCancel(s.settings, i, s.motor.state);
    NoCancel(c.settings, i, c.motor.state);
    hide NextLoader, NextClock, NextPosition, NextBacklash, NextSlack, NextMotor, NextSettings;
  }

  lemma NoCancel(k: Settings, i: Ctrl, m: MotorState)
    requires !i.cancel
    ensures !NextSettings(k, i, m).cancel
  {
  }

  /** One tick of state_motor and its buffer while something executes. */
  lemma Holds(s: Regs, i: Ctrl)
    requires (s.motor.buf == Park || s.motor.buf == Command) && !s.settings.cancel
    ensures var m := Tick(s, i).motor;
            && m.state == s.motor.buf
            && m.buf == (if s.motor.target == s.position && !s.clock.step then Idle else s.motor.buf)
            && m.direction == s.motor.direction && m.mode == s.motor.mode && m.speed == s.motor.speed
            && m.target == s.motor.target
  {
    hide NextLoader, NextClock, NextPosition, NextBacklash, NextSlack, NextSettings, RelativeTarget;
  }

  lemma AlikeTick(s: Regs, c: Regs, i: Ctrl)
    requires Alike(s, c) && SameAim(s, c) && s.motor.buf == Park && !i.cancel
    ensures Alike(Tick(s, i), Tick(c, i)) && SameAim(Tick(s, i), Tick(c, i))
    ensures StepCounted(s, i) <==> StepCounted(c, i)
  {
    SameCounter(s, c, i);
    SameMotor(s, c, i);
    hide Tick;
  }

  /** The promise about a park: it is given up after exactly u ticks and not before, at every tick the
      position is on the way, and exactly the steps of the plan are counted. */
  ghost predicate Parks(s: Regs, p: Plan, j: nat, ins: seq<Ctrl>, u: nat) {
    && u + 1 <= |ins|
    && (forall m :: 0 <= m < u ==> Exec(s, ins[..m]).motor.buf == Park)
    && Exec(s, ins[..u]).motor.buf == Idle && Exec(s, ins[..u + 1]).motor.state == Idle
    && (forall m :: 0 <= m <= u + 1 ==> Exec(s, ins[..m]).position == Along(p, j + Steps(s, ins[..m])))
    && (forall m :: u <= m <= u + 1 ==> j + Steps(s, ins[..m]) == p.count)
  }

  /** As long as the command runs, the park runs alike. */
  lemma {:induction false} AlikeUntil(s: Regs, c: Regs, p: Plan, j: nat, ins: seq<Ctrl>, u: nat, m: nat)
    requires Alike(s, c) && SameAim(s, c) && Delivers(c, p, j, ins, u) && m <= u && AllQuiet(ins, p)
    ensures m <= |ins| && Alike(Exec(s, ins[..m]), Exec(c, ins[..m])) && SameAim(Exec(s, ins[..m]), Exec(c, ins[..m]))
    ensures Steps(s, ins[..m]) == Steps(c, ins[..m])
    decreases m
  {
    hide *;
    DeliveredAt(c, p, j, ins, u, m);
    if m == 0 {
      NoTicks(s, ins);
      NoTicks(c, ins);
    } else {
      AlikeUntil(s, c, p, j, ins, u, m - 1);
      DeliveredAt(c, p, j, ins, u, m - 1);
      var a, b := Exec(s, ins[..m - 1]), Exec(c, ins[..m - 1]);
      AlikeMeans(a, b);
      NotCancelled(ins, p, m - 1);
      AlikeTick(a, b, ins[m - 1]);
      LastTick(s, ins, m);
      LastTick(c, ins, m);
    }
  }

  lemma NoTicks(s: Regs, ins: seq<Ctrl>)
    ensures Exec(s, ins[..0]) == s && Steps(s, ins[..0]) == 0
  {
  }

  lemma NotCancelled(ins: seq<Ctrl>, p: Plan, m: nat)
    requires AllQuiet(ins, p) && m < |ins|
    ensures !ins[m].cancel
  {
  }

  lemma LastTick(s: Regs, ins: seq<Ctrl>, m: nat)
    requires 1 <= m <= |ins|
    ensures Exec(s, ins[..m]) == Tick(Exec(s, ins[..m - 1]), ins[m - 1])
    ensures Steps(s, ins[..m])
            == Steps(s, ins[..m - 1]) + if StepCounted(Exec(s, ins[..m - 1]), ins[m - 1]) then 1 else 0
  {
    hide Tick, StepCounted;
    assert ins[..m] == ins[..m - 1] + [ins[m - 1]];
    RunsConcatenate(s, ins[..m - 1], [ins[m - 1]]);
    assert [ins[m - 1]][1..] == [];
  }

  lemma LeavesPark(s: Regs, c: Regs, i: Ctrl)
    requires Alike(s, c) && SameAim(s, c) && s.motor.buf == Idle
    ensures Tick(s, i).motor.state == Idle && Tick(s, i).position == Tick(c, i).position
    ensures StepCounted(s, i) <==> StepCounted(c, i)
  {
    SameCounter(s, c, i);
    hide NextLoader, NextClock, NextPosition, NextBacklash, NextSlack, NextSettings;
  }

  /** What the promise to the command says at one tick. */
  lemma DeliveredAt(c: Regs, p: Plan, j: nat, ins: seq<Ctrl>, u: nat, m: nat)
    requires Delivers(c, p, j, ins, u) && m <= u + 1
    ensures u + 2 <= |ins|
    ensures Exec(c, ins[..m]).position == Along(p, j + Steps(c, ins[..m]))
    ensures m < u ==> Exec(c, ins[..m]).motor.buf == Command
    ensures m == u ==> Exec(c, ins[..m]).motor.buf == Idle
    ensures m >= u ==> j + Steps(c, ins[..m]) == p.count
  {
    hide Exec, Steps, Along;
  }

  lemma AlikeMeans(s: Regs, c: Regs)
    requires Alike(s, c)
    ensures s.position == c.position
    ensures c.motor.buf == Command ==> s.motor.buf == Park
    ensures c.motor.buf == Idle ==> s.motor.buf == Idle
  {
  }

  lemma ParkedAt(s: Regs, c: Regs, p: Plan, j: nat, ins: seq<Ctrl>, u: nat, m: nat)
    requires Alike(s, c) && SameAim(s, c) && Delivers(c, p, j, ins, u) && AllQuiet(ins, p) && m <= u + 1
    ensures u + 2 <= |ins|
    ensures Exec(s, ins[..m]).position == Along(p, j + Steps(s, ins[..m]))
    ensures m < u ==> Exec(s, ins[..m]).motor.buf == Park
    ensures m == u ==> Exec(s, ins[..m]).motor.buf == Idle
    ensures m == u + 1 ==> Exec(s, ins[..m]).motor.state == Idle
    ensures m >= u ==> j + Steps(s, ins[..m]) == p.count
  {
    hide *;
    DeliveredAt(c, p, j, ins, u, m);
    if m <= u {
      AlikeUntil(s, c, p, j, ins, u, m);
      AlikeMeans(Exec(s, ins[..m]), Exec(c, ins[..m]));
    } else {
      DeliveredAt(c, p, j, ins, u, u);
      AlikeUntil(s, c, p, j, ins, u, u);
      AlikeMeans(Exec(s, ins[..u]), Exec(c, ins[..u]));
      LeavesPark(Exec(s, ins[..u]), Exec(c, ins[..u]), ins[u]);
      LastTick(s, ins, u + 1);
      LastTick(c, ins, u + 1);
    }
  }

  lemma ParksLikeCommand(s: Regs, c: Regs, p: Plan, j: nat, ins: seq<Ctrl>, u: nat)
    requires Alike(s, c) && SameAim(s, c) && Delivers(c, p, j, ins, u) && AllQuiet(ins, p)
    ensures Parks(s, p, j, ins, u)
  {
    hide Alike, SameAim, Delivers, AllQuiet, Exec, Steps, Along;
    DeliveredAt(c, p, j, ins, u, u);
    forall m | 0 <= m <= u + 1
      ensures Exec(s, ins[..m]).position == Along(p, j + Steps(s, ins[..m]))
      ensures m < u ==> Exec(s, ins[..m]).motor.buf == Park
      ensures m >= u ==> j + Steps(s, ins[..m]) == p.count
    {
      ParkedAt(s, c, p, j, ins, u, m);
    }
    ParkedAt(s, c, p, j, ins, u, u);
    ParkedAt(s, c, p, j, ins, u, u + 1);
  }

  /** The controller at rest, with the rising edge of the park bit about to be seen. */
  predicate AcceptsPark(s: Regs, p: Plan) {
    && s.settings.park && !s.motor.parkBuf && (s.settings.cmd ==> s.motor.cmdBuf)
    && Accepts(AsGoto(s), p)
  }

  /** The same registers with a command to position 0 in place of the park. */
  function AsGoto(s: Regs): Regs {
    Regs(s.delta, s.trigger, s.clock, s.backlash, s.pipe,
         Motor(s.motor.state, s.motor.buf, s.motor.direction, s.motor.mode, s.motor.speed, s.motor.target, false,
               s.motor.parkBuf),
         Settings(s.settings.direction, true, true, s.settings.tick, s.settings.cancel, s.settings.cancelNow,
                  s.settings.park, s.settings.mode, 0, s.settings.trackTick, s.settings.trackPec,
                  s.settings.trackDirection, s.settings.trackEnabled, s.settings.trackMode, s.settings.pecEnable),
         s.slack, s.loader, s.position)
  }

  lemma StartsAlike(s: Regs, p: Plan, i: Ctrl)
    requires AcceptsPark(s, p)
    ensures Alike(Tick(s, i), Tick(AsGoto(s), i)) && SameAim(Tick(s, i), Tick(AsGoto(s), i))
  {
  }

  lemma AimsAtZero(s: Regs, p: Plan)
    requires AcceptsPark(s, p) && Along(p, p.count) == 0 && Clear(p, s.loader)
    ensures Accepts(AsGoto(s), p) && Aims(AsGoto(s), p)
  {
  }

  /** A park from n >= 1 steps away makes exactly these n steps and stops at position 0. */
  lemma ParkArrives(s: Regs, p: Plan, ins: seq<Ctrl>) returns (u: nat)
    requires p.period >= 3 && p.count >= 1 && p.delta >= 1
    requires AcceptsPark(s, p) && Along(p, p.count) == 0 && Clear(p, s.loader)
    requires AllQuiet(ins, p) && |ins| >= Cycles(p.count, p.period) + p.period + 8 && |ins| >= 2
    requires !ins[0].loadStrobe && !ins[0].maxStrobe && !ins[1].loadStrobe
    ensures u <= Cycles(p.count, p.period) + p.period + 5
    ensures Parks(Tick(s, ins[0]), p, 0, ins[1..], u)
  {
    hide *;
    AimsAtZero(s, p);
    u := StepsToTarget(AsGoto(s), p, ins);
    StartsAlike(s, p, ins[0]);
    QuietParts(ins, p);
    ParksLikeCommand(Tick(s, ins[0]), Tick(AsGoto(s), ins[0]), p, 0, ins[1..], u);
  }
}
