/** The stepper controller of hdl/drv8825.vhd at the level of clk_50 ticks, for commands issued
    without the acceleration flag (bit 7 of ctrl_cmdcontrol).

    Every clocked process of the architecture is one function from old register values to new
    ones; `Tick` applies them all to the same old state.  The position counter is clocked by
    the register counter_clk, so it reads the values its neighbours have just taken. */
module Drv8825 {

  const WORD30 := 0x4000_0000

  type Word30 = w: int | 0 <= w < WORD30

  // The enumeration types of the architecture.
  datatype Trigger = Steady | Direction | DirectionSpeed | Speed
  datatype BacklashState = Seek | Processing | Done | Disabled
  datatype MotorState = Idle | Tracking | Command | Park
  datatype LoadState = Normal | Buf0 | Buf1 | Buf2 | Buf3 | Buf4

  /** The control ports as sampled on one tick, split into their bit fields. */
  datatype Ctrl = Ctrl(
    isTmc: bool, pec: int,
    go: bool, goto: bool, cmdDirection: bool, park: bool, cmdMode: nat, cancelNow: bool, cancel: bool,
    cmdTick: Word30, cmdDuration: Word30,
    backlashTick: Word30, backlashMode: nat, backlashDuration: Word30,
    loadStrobe: bool, load: Word30,
    maxStrobe: bool, max: Word30,
    trackEnable: bool, trackDirection: bool, trackMode: nat, pecEnable: bool, trackTick: Word30)

  // Process clock_generatory: stepping_clk and count.
  datatype Clock = Clock(step: bool, count: int)

  // Process backslash: state_backlash, ctr_backlash_cnt, counter_buf, current_mode_out.
  datatype Backlash = Backlash(state: BacklashState, cnt: Word30, period: int, modeOut: nat)

  // Process accel_control: the head of its shift registers.
  datatype Pipe = Pipe(dir0: bool, dir1: bool, speed0: int, speed1: int, modeBuf: nat)

  // Process issue_command.
  datatype Motor = Motor(state: MotorState, buf: MotorState, direction: bool, mode: nat, speed: int,
                         target: Word30, cmdBuf: bool, parkBuf: bool)

  // Process settings: the sampled inputs, and among them those frozen by a backlash episode.
  datatype Settings = Settings(
    direction: bool, cmd: bool, goto: bool, tick: Word30, cancel: bool, cancelNow: bool, park: bool,
    mode: nat, duration: Word30,
    trackTick: Word30, trackPec: int, trackDirection: bool, trackEnabled: bool, trackMode: nat,
    pecEnable: bool)
  datatype Slack = Slack(tickIn: Word30, tick: Word30, durationIn: Word30, duration: Word30, mode: nat)

  // Process loadcounter.  max is the 31-bit max_counter, max2 is max_counter2.
  datatype Loader = Loader(state: LoadState, cntEnable: bool, counterClk: bool, loadCount: bool,
                           loadCounter: Word30, max: int, max2: Word30,
                           maskStrobe: bool, mask: Word30, pulseLoad: bool)

  datatype Regs = Regs(delta: nat, trigger: Trigger, clock: Clock, backlash: Backlash, pipe: Pipe,
                       motor: Motor, settings: Settings, slack: Slack, loader: Loader,
                       position: Word30)

  // ---------------------------------------------------------------------------------
  // One function per process
  // ---------------------------------------------------------------------------------

  /** Position units per step for a microstepping mode. */
  function DeltaOf(mode: nat, isTmc: bool): nat {
    if isTmc then
      if mode == 3 then 8 else if mode == 4 then 4 else if mode == 5 then 2 else 1
    else
      if mode == 0 then 32 else if mode == 1 then 16 else if mode == 2 then 8
      else if mode == 3 then 4 else if mode == 4 then 2 else 1
  }

  function NextTrigger(p: Pipe): Trigger {
    if p.dir1 != p.dir0 && p.speed1 != p.speed0 then DirectionSpeed
    else if p.dir1 != p.dir0 then Direction
    else if p.speed1 != p.speed0 then Speed
    else Steady
  }

  function NextClock(c: Clock, trigger: Trigger, period: int): Clock {
    if trigger == Speed || trigger == DirectionSpeed then Clock(false, 0)
    else if c.count == period / 2 then Clock(!c.step, c.count + 1)
    else if c.count > period - 1 then Clock(!c.step, 0)
    else Clock(c.step, c.count + 1)
  }

  function NextBacklash(b: Backlash, trigger: Trigger, p: Pipe, k: Slack): Backlash {
    match b.state
    case Seek =>
      var turn := trigger == Direction || trigger == DirectionSpeed;
      Backlash(if k.duration == 0 then Disabled else if turn then Processing else Seek, 0,
               if turn then k.tick else p.speed1,
               if turn then k.mode else p.modeBuf)
    case Processing =>
      Backlash(if b.cnt == k.duration then Done else Processing, (b.cnt + 1) % WORD30, k.tick, k.mode)
    case Done => Backlash(Seek, 0, p.speed1, p.modeBuf)
    case Disabled =>
      Backlash(if k.duration != 0 then Seek else Disabled, b.cnt, p.speed1, p.modeBuf)
  }

  function NextPipe(p: Pipe, m: Motor): Pipe {
    Pipe(m.direction, p.dir0, m.speed, p.speed0, m.mode)
  }

  /** The target of a relative command, in 30-bit arithmetic. */
  function RelativeTarget(position: Word30, n: Word30, up: bool, max2: Word30): Word30 {
    if up then
      var sum := (position + n) % WORD30;
      if sum > max2 then sum - max2 else sum
    else
      if position > n then position - n else (position - n + max2) % WORD30
  }

  function NextMotor(m: Motor, s: Settings, step: bool, position: Word30, max2: Word30): Motor {
    var held := m.(state := m.buf, cmdBuf := s.cmd, parkBuf := s.park);
    match m.buf
    case Command =>
      if s.cancel || (m.target == position && !step) then held.(buf := Idle) else held
    case Park =>
      if s.cancel || (m.target == position && !step) then held.(buf := Idle) else held
    case _ =>
      if !m.cmdBuf && s.cmd then
        held.(buf := Command, direction := s.direction, mode := s.mode, speed := s.tick,
              target := if s.goto then s.duration
                        else RelativeTarget(position, s.duration, s.direction, max2))
      else if !m.parkBuf && s.park then
        held.(buf := Park, direction := s.direction, speed := s.tick, mode := s.mode, target := 0)
      else if s.trackEnabled then
        held.(buf := Tracking, direction := s.trackDirection, mode := s.trackMode,
              speed := if s.pecEnable then s.trackTick + s.trackPec else s.trackTick)
      else held.(buf := Idle)
  }

  function NextSettings(s: Settings, i: Ctrl, motor: MotorState): Settings {
    if motor != Command then
      Settings(i.cmdDirection, i.go, i.goto, i.cmdTick, false, s.cancelNow, i.park, i.cmdMode, i.cmdDuration,
               i.trackTick, i.pec, i.trackDirection, i.trackEnable, i.trackMode, i.pecEnable)
    else
      s.(cancel := i.cancel, cancelNow := i.cancelNow, trackPec := i.pec)
  }

  function NextSlack(k: Slack, i: Ctrl, backlash: BacklashState): Slack {
    if backlash != Processing then
      Slack(i.backlashTick, k.tickIn, i.backlashDuration, k.durationIn, i.backlashMode)
    else k
  }

  predicate MaxLoaded(l: Loader) {
    l.max < WORD30
  }

  /** What `normal` finds to load, if anything: the two wraps come before an external load. */
  datatype Request = Nothing | Load(value: Word30)

  /** The external controls are looked at only outside commands, while stepping_clk is low. */
  predicate Listening(motor: MotorState, step: bool) {
    motor != Park && motor != Command && !step
  }

  function LoadRequest(l: Loader, i: Ctrl, motor: MotorState, step: bool, position: Word30): Request {
    if MaxLoaded(l) && position == l.max && !step then Load(2)
    else if MaxLoaded(l) && position == WORD30 - 1 && !step then Load((l.max - 2) % WORD30)
    else if Listening(motor, step) && i.loadStrobe && !l.pulseLoad then Load(i.load)
    else Nothing
  }

  predicate Wraps(l: Loader, step: bool, position: Word30) {
    MaxLoaded(l) && (position == l.max || position == WORD30 - 1) && !step
  }

  function NextLoader(l: Loader, i: Ctrl, motor: MotorState, backlash: BacklashState, step: bool,
                      position: Word30): Loader
  {
    if l.state == Normal then
      var request := LoadRequest(l, i, motor, step, position);
      var listens := Listening(motor, step) && !Wraps(l, step, position);
      var newMax := listens && request == Nothing && l.maskStrobe;
      Loader(if request == Nothing then Normal else Buf0,
             motor != Idle && backlash != Processing, step, false,
             if request == Nothing then l.loadCounter else request.value,
             if newMax then l.mask + 1 else l.max, if newMax then l.mask else l.max2,
             i.maxStrobe, i.max, if listens then i.loadStrobe else l.pulseLoad)
    else
      Loader(match l.state { case Normal => Normal case Buf0 => Buf1 case Buf1 => Buf2
                             case Buf2 => Buf3 case Buf3 => Buf4 case Buf4 => Normal },
             true, !l.counterClk, true, l.loadCounter, l.max, l.max2, i.maxStrobe, i.max, l.pulseLoad)
  }

  /** counter_clk rises on this tick with the counter enabled. */
  predicate CounterEdge(l: Loader, l': Loader) {
    !l.counterClk && l'.counterClk && l'.cntEnable
  }

  /** The process on counter_clk; l', p' and delta' are the values after the tick. */
  function NextPosition(position: Word30, l: Loader, l': Loader, p': Pipe, delta': nat): Word30 {
    if !CounterEdge(l, l') then position
    else if l'.loadCount then l'.loadCounter
    else if p'.dir0 then (position + delta') % WORD30
    else (position - delta') % WORD30
  }

  function Tick(s: Regs, i: Ctrl): Regs {
    var delta' := DeltaOf(s.backlash.modeOut, i.isTmc);
    var pipe' := NextPipe(s.pipe, s.motor);
    var loader' := NextLoader(s.loader, i, s.motor.state, s.backlash.state, s.clock.step, s.position);
    Regs(delta',
         NextTrigger(s.pipe),
         NextClock(s.clock, s.trigger, s.backlash.period),
         NextBacklash(s.backlash, s.trigger, s.pipe, s.slack),
         pipe',
         NextMotor(s.motor, s.settings, s.clock.step, s.position, s.loader.max2),
         NextSettings(s.settings, i, s.motor.state),
         NextSlack(s.slack, i, s.backlash.state),
         loader',
         NextPosition(s.position, s.loader, loader', pipe', delta'))
  }

  // ---------------------------------------------------------------------------------
  // The entity
  // ---------------------------------------------------------------------------------

  class Controller {
    var delta: nat
    var trigger: Trigger
    var clock: Clock
    var backlash: Backlash
    var pipe: Pipe
    var motor: Motor
    var settings: Settings
    var slack: Slack
    var loader: Loader
    var position: Word30

    ghost function Registers(): Regs
      reads this
    {
      Regs(delta, trigger, clock, backlash, pipe, motor, settings, slack, loader, position)
    }

    constructor (initial: Regs)
      ensures Registers() == initial
    {
      delta, trigger, clock, backlash := initial.delta, initial.trigger, initial.clock, initial.backlash;
      pipe, motor, settings := initial.pipe, initial.motor, initial.settings;
      slack, loader, position := initial.slack, initial.loader, initial.position;
    }

    method ClockGeneratory() returns (next: Clock)
      ensures next == NextClock(clock, trigger, backlash.period)
    {
      var step, count := clock.step, clock.count + 1;
      if trigger == Speed || trigger == DirectionSpeed {
        count := 0;
        step := false;
      } else if clock.count == backlash.period / 2 {
        step := !clock.step;
      } else if clock.count > backlash.period - 1 {
        count := 0;
        step := !clock.step;
      }
      next := Clock(step, count);
    }

    method Backslash() returns (next: Backlash)
      ensures next == NextBacklash(backlash, trigger, pipe, slack)
    {
      var state, cnt, period, modeOut := backlash.state, backlash.cnt, pipe.speed1, pipe.modeBuf;
      match backlash.state {
        case Seek =>
          cnt := 0;
          if trigger == Direction || trigger == DirectionSpeed {
            state, period, modeOut := Processing, slack.tick, slack.mode;
          }
          if slack.duration == 0 {
            state := Disabled;
          }
        case Processing =>
          cnt := (backlash.cnt + 1) % WORD30;
          period, modeOut := slack.tick, slack.mode;
          if backlash.cnt == slack.duration {
            state := Done;
          }
        case Done =>
          state, cnt := Seek, 0;
        case Disabled =>
          if slack.duration != 0 {
            state := Seek;
          }
      }
      next := Backlash(state, cnt, period, modeOut);
    }

    method IssueCommand() returns (next: Motor)
      ensures next == NextMotor(motor, settings, clock.step, position, loader.max2)
    {
      next := motor.(state := motor.buf, cmdBuf := settings.cmd, parkBuf := settings.park);
      if motor.buf == Command || motor.buf == Park {
        if settings.cancel {
          next := next.(buf := Idle);
        } else if motor.target == position && !clock.step {
          next := next.(buf := Idle);
        }
      } else if !motor.cmdBuf && settings.cmd {
        next := next.(buf := Command, direction := settings.direction, mode := settings.mode);
        if settings.goto {
          next := next.(target := settings.duration);
        } else if settings.direction {
          var sum: Word30 := (position + settings.duration) % WORD30;
          next := next.(target := if sum > loader.max2 then sum - loader.max2 else sum);
        } else if position > settings.duration {
          next := next.(target := position - settings.duration);
        } else {
          next := next.(target := (position - settings.duration + loader.max2) % WORD30);
        }
        next := next.(speed := settings.tick);
      } else if !motor.parkBuf && settings.park {
        next := next.(buf := Park, direction := settings.direction, speed := settings.tick,
                      mode := settings.mode, target := 0);
      } else if settings.trackEnabled {
        next := next.(buf := Tracking, direction := settings.trackDirection, mode := settings.trackMode);
        if settings.pecEnable {
          next := next.(speed := settings.trackTick + settings.trackPec);
        } else {
          next := next.(speed := settings.trackTick);
        }
      } else {
        next := next.(buf := Idle);
      }
    }

    method LoadCounter(i: Ctrl) returns (next: Loader)
      ensures next == NextLoader(loader, i, motor.state, backlash.state, clock.step, position)
    {
      next := loader.(cntEnable := false, counterClk := false, loadCount := false,
                      maskStrobe := i.maxStrobe, mask := i.max);
      if loader.state == Normal {
        if motor.state != Idle && backlash.state != Processing {
          next := next.(cntEnable := true);
        }
        next := next.(counterClk := clock.step);
        if loader.max < WORD30 && position == loader.max && !clock.step {
          next := next.(state := Buf0, loadCounter := 2);
        } else if loader.max < WORD30 && position == WORD30 - 1 && !clock.step {
          next := next.(state := Buf0, loadCounter := (loader.max - 2) % WORD30);
        } else if motor.state != Park && motor.state != Command && !clock.step {
          if i.loadStrobe && !loader.pulseLoad {
            next := next.(state := Buf0, loadCounter := i.load);
          } else if loader.maskStrobe {
            next := next.(max := loader.mask + 1, max2 := loader.mask);
          }
          next := next.(pulseLoad := i.loadStrobe);
        }
      } else {
        next := next.(counterClk := !loader.counterClk, cntEnable := true, loadCount := true);
        match loader.state {
          case Buf0 => next := next.(state := Buf1);
          case Buf1 => next := next.(state := Buf2);
          case Buf2 => next := next.(state := Buf3);
          case Buf3 => next := next.(state := Buf4);
          case Buf4 => next := next.(state := Normal);
        }
      }
    }

    method SampleInputs(i: Ctrl) returns (next: Settings, slack': Slack)
      ensures next == NextSettings(settings, i, motor.state)
      ensures slack' == NextSlack(slack, i, backlash.state)
    {
      next, slack' := settings.(cancel := false, trackPec := i.pec), slack;
      if motor.state != Command {
        next := next.(tick := i.cmdTick, direction := i.cmdDirection, cmd := i.go, goto := i.goto);
        next := next.(park := i.park, mode := i.cmdMode, duration := i.cmdDuration);
        next := next.(trackTick := i.trackTick, trackEnabled := i.trackEnable);
        next := next.(trackDirection := i.trackDirection, trackMode := i.trackMode, pecEnable := i.pecEnable);
      } else {
        next := next.(cancel := i.cancel, cancelNow := i.cancelNow);
      }
      if backlash.state != Processing {
        slack' := slack'.(tickIn := i.backlashTick, tick := slack.tickIn, mode := i.backlashMode);
        slack' := slack'.(durationIn := i.backlashDuration, duration := slack.durationIn);
      }
    }

    /** The process on counter_clk, which sees the new values of its neighbours. */
    method CounterClk(loader': Loader, pipe': Pipe, delta': nat) returns (next: Word30)
      ensures next == NextPosition(position, loader, loader', pipe', delta')
    {
      next := position;
      if !loader.counterClk && loader'.counterClk {
        if loader'.cntEnable {
          if loader'.loadCount {
            next := loader'.loadCounter;
          } else if pipe'.dir0 {
            next := (position + delta') % WORD30;
          } else {
            next := (position - delta') % WORD30;
          }
        }
      }
    }

    /** rising_edge(clk_50), followed by the counter process if counter_clk rises. */
    method RisingClk50(i: Ctrl)
      modifies this
      ensures Registers() == Tick(old(Registers()), i)
    {
      hide NextClock, NextBacklash, NextMotor, NextSettings, NextSlack, NextLoader, NextPosition;
      var clock' := ClockGeneratory();
      var backlash' := Backslash();
      var motor' := IssueCommand();
      var loader' := LoadCounter(i);
      var pipe' := NextPipe(pipe, motor);
      var delta' := DeltaOf(backlash.modeOut, i.isTmc);
      var position' := CounterClk(loader', pipe', delta');
      var settings', slack' := SampleInputs(i);
      trigger := NextTrigger(pipe);
      clock, backlash, motor, loader := clock', backlash', motor', loader';
      pipe, delta, position := pipe', delta', position';
      settings, slack := settings', slack';
    }
  }

  // ---------------------------------------------------------------------------------
  // Runs
  // ---------------------------------------------------------------------------------

  function Exec(s: Regs, ins: seq<Ctrl>): Regs
    decreases |ins|
  {
    if ins == [] then s else Exec(Tick(s, ins[0]), ins[1..])
  }

  /** A step pulse is counted on this tick. */
  predicate StepCounted(s: Regs, i: Ctrl) {
    CounterEdge(s.loader, Tick(s, i).loader) && !Tick(s, i).loader.loadCount
  }

  function Steps(s: Regs, ins: seq<Ctrl>): nat
    decreases |ins|
  {
    if ins == [] then 0
    else (if StepCounted(s, ins[0]) then 1 else 0) + Steps(Tick(s, ins[0]), ins[1..])
  }

  lemma {:induction false} RunsConcatenate(s: Regs, a: seq<Ctrl>, b: seq<Ctrl>)
    ensures Exec(s, a + b) == Exec(Exec(s, a), b)
    ensures Steps(s, a + b) == Steps(s, a) + Steps(Exec(s, a), b)
    decreases |a|
  {
    if a == [] {
      assert a + b == b;
    } else {
      assert (a + b)[1..] == a[1..] + b;
      RunsConcatenate(Tick(s, a[0]), a[1..], b);
    }
  }

  /** The speed trigger is what resets the step clock. */
  predicate Resets(t: Trigger) {
    t == Speed || t == DirectionSpeed
  }

  /** counter_buf holds `period` and the step clock is not reset, in every state of the run. */
  predicate ConstantPeriod(s: Regs, ins: seq<Ctrl>, period: int)
    decreases |ins|
  {
    && s.backlash.period == period
    && !Resets(s.trigger)
    && (ins != [] ==> ConstantPeriod(Tick(s, ins[0]), ins[1..], period))
  }
}
