/** From the sampled control ports of hdl/drv8825.vhd to what the controller then does: commands,
    parks, cancels, loads, maxima, microstepping modes and the backlash of a turn. */
module Controls {
  import opened Bytes
  import opened Drv8825
  import LoadTiming
  import BacklashEpisode

  /** Neither a command nor a park is executing or about to. */
  predicate Free(s: Regs) {
    && (s.motor.state == Idle || s.motor.state == Tracking) && (s.motor.buf == Idle || s.motor.buf == Tracking)
    && (s.settings.cmd ==> s.motor.cmdBuf) && (s.settings.park ==> s.motor.parkBuf)
  }

  /** The ports of a tick, as the controller sees them on the next. */
  lemma Sampled(s: Regs, i: Ctrl)
    requires Free(s)
    ensures var t := Tick(s, i);
            && (t.motor.state == Idle || t.motor.state == Tracking)
            && (t.motor.buf == Idle || t.motor.buf == Tracking)
            && t.motor.cmdBuf == s.settings.cmd && t.motor.parkBuf == s.settings.park
    ensures var k := Tick(s, i).settings;
            && k.cmd == i.go && k.park == i.park && k.goto == i.goto && k.direction == i.cmdDirection
            && k.tick == i.cmdTick && k.mode == i.cmdMode && k.duration == i.cmdDuration
  {
    hide NextLoader, NextClock, NextPosition, NextBacklash, NextSlack, RelativeTarget;
  }

  lemma StateFollows(s: Regs, i: Ctrl)
    ensures Tick(s, i).motor.state == s.motor.buf
  {
    hide NextLoader, NextClock, NextPosition, NextBacklash, NextSlack, NextSettings;
  }

  lemma CommandStarts(t: Regs, j: Ctrl)
    requires (t.motor.buf == Idle || t.motor.buf == Tracking) && !t.motor.cmdBuf && t.settings.cmd
    ensures var k, m := t.settings, Tick(t, j).motor;
            && m.buf == Command && m.direction == k.direction && m.speed == k.tick && m.mode == k.mode
            && m.target == (if k.goto then k.duration
                            else RelativeTarget(t.position, k.duration, k.direction, t.loader.max2))
  {
    hide NextLoader, NextClock, NextPosition, NextBacklash, NextSlack, NextSettings, RelativeTarget;
  }

  lemma ParkStarts(t: Regs, j: Ctrl)
    requires (t.motor.buf == Idle || t.motor.buf == Tracking) && !t.motor.parkBuf && t.settings.park
    requires !t.settings.cmd
    ensures var k, m := t.settings, Tick(t, j).motor;
            && m.buf == Park && m.direction == k.direction && m.speed == k.tick && m.mode == k.mode
            && m.target == 0
  {
    hide NextLoader, NextClock, NextPosition, NextBacklash, NextSlack, NextSettings, RelativeTarget;
  }

  /** The command bit rises on tick i: two ticks later the command is set up from the ports of that
      tick, also if the park bit rises with it, and it executes on the third. */
  lemma CommandTaken(s: Regs, i: Ctrl, j: Ctrl, k: Ctrl)
    requires Free(s) && !s.settings.cmd && i.go
    ensures var t := Tick(s, i);
            var m := Tick(t, j).motor;
            && m.buf == Command && m.direction == i.cmdDirection && m.speed == i.cmdTick && m.mode == i.cmdMode
            && m.target == (if i.goto then i.cmdDuration
                            else RelativeTarget(t.position, i.cmdDuration, i.cmdDirection, t.loader.max2))
            && Tick(Tick(t, j), k).motor.state == Command
  {
    hide *;
    var t := Tick(s, i);
    Sampled(s, i);
    CommandStarts(t, j);
    StateFollows(Tick(t, j), k);
  }

  /** The park bit rises alone: the park turns as the command ports say, and aims at 0. */
  lemma ParkTaken(s: Regs, i: Ctrl, j: Ctrl, k: Ctrl)
    requires Free(s) && !s.settings.park && i.park && !i.go
    ensures var t := Tick(s, i);
            var m := Tick(t, j).motor;
            && m.buf == Park && m.direction == i.cmdDirection && m.speed == i.cmdTick && m.mode == i.cmdMode
            && m.target == 0 && Tick(Tick(t, j), k).motor.state == Park
  {
    hide *;
    var t := Tick(s, i);
    Sampled(s, i);
    ParkStarts(t, j);
    StateFollows(Tick(t, j), k);
  }

  /** A cancelled command is given up within two ticks, and the motor leaves it on the next. */
  lemma CancelEnds(s: Regs, i: Ctrl, j: Ctrl, k: Ctrl)
    requires s.motor.state == Command && s.motor.buf == Command && i.cancel
    ensures var t := Tick(s, i);
            var u := Tick(t, j);
            && (t.motor.buf == Idle || u.motor.buf == Idle)
            && (t.motor.buf == Idle ==> u.motor.state == Idle)
            && (u.motor.buf == Idle ==> Tick(u, k).motor.state == Idle)
  {
    hide *;
    var t := Tick(s, i);
    CancelSeen(s, i);
    StateFollows(t, j);
    StateFollows(Tick(t, j), k);
    if t.motor.buf != Idle {
      GivesUpCancelled(t, j);
    }
  }

  lemma CancelSeen(s: Regs, i: Ctrl)
    requires s.motor.state == Command && s.motor.buf == Command && i.cancel
    ensures Tick(s, i).settings.cancel
    ensures Tick(s, i).motor.buf == Idle || Tick(s, i).motor.buf == Command
  {
    hide NextLoader, NextClock, NextPosition, NextBacklash, NextSlack;
  }

  lemma GivesUpCancelled(t: Regs, j: Ctrl)
    requires t.settings.cancel && t.motor.buf == Command
    ensures Tick(t, j).motor.buf == Idle
  {
    hide NextLoader, NextClock, NextPosition, NextBacklash, NextSlack, NextSettings;
  }

  /** A park cannot be cancelled: only its target ends it. */
  lemma ParkIgnoresCancel(s: Regs, i: Ctrl)
    requires s.motor.state == Park && s.motor.buf == Park && !s.settings.cancel
    ensures var t := Tick(s, i);
            && t.motor.state == Park && !t.settings.cancel
            && t.motor.buf == if s.motor.target == s.position && !s.clock.step then Idle else Park
  {
    hide NextLoader, NextClock, NextPosition, NextBacklash, NextSlack, RelativeTarget;
  }

  /** What a command was given does not change while it executes, whatever the ports do. */
  lemma {:induction false} CommandIsKept(s: Regs, ins: seq<Ctrl>)
    requires s.motor.buf == Command
    requires forall k :: 0 <= k < |ins| ==> Exec(s, ins[..k]).motor.buf == Command
    ensures var m := Exec(s, ins).motor;
            && m.target == s.motor.target && m.direction == s.motor.direction
            && m.speed == s.motor.speed && m.mode == s.motor.mode
    decreases |ins|
  {
    if ins != [] {
      var n := |ins| - 1;
      assert forall k :: 0 <= k < n ==> ins[..n][..k] == ins[..k];
      CommandIsKept(s, ins[..n]);
      assert ins == ins[..n] + [ins[n]];
      RunsConcatenate(s, ins[..n], [ins[n]]);
      BacklashEpisode.OneTick(Exec(s, ins[..n]), ins[n]);
      KeptTick(Exec(s, ins[..n]), ins[n]);
    }
  }

  lemma KeptTick(s: Regs, i: Ctrl)
    requires s.motor.buf == Command
    ensures var m := Tick(s, i).motor;
            && m.target == s.motor.target && m.direction == s.motor.direction
            && m.speed == s.motor.speed && m.mode == s.motor.mode
  {
  }

  /** An accepted load is in the position counter two ticks later. */
  lemma LoadArrives(s: Regs, i: Ctrl, j: Ctrl)
    requires LoadTiming.LoadAccepted(s, i)
    ensures Tick(Tick(s, i), j).position == i.load
    ensures Tick(s, i).loader.state == Buf0 && Tick(s, i).position == s.position
  {
    hide NextMotor, NextClock, NextBacklash, NextSettings, NextSlack;
  }

  /** A maximum is in force two ticks after its strobe, if the loader then listens. */
  lemma MaximumArrives(s: Regs, i: Ctrl, j: Ctrl)
    requires i.maxStrobe
    requires var t := Tick(s, i);
             && t.loader.state == Normal && Listening(t.motor.state, t.clock.step)
             && LoadRequest(t.loader, j, t.motor.state, t.clock.step, t.position) == Nothing
    ensures var l := Tick(Tick(s, i), j).loader; l.max == i.max + 1 && l.max2 == i.max
  {
    hide NextMotor, NextClock, NextBacklash, NextSettings, NextSlack;
  }

  /** The maximum changes only while the loader listens and a strobe has been sampled. */
  lemma MaximumIsKept(s: Regs, i: Ctrl)
    requires !(s.loader.state == Normal && Listening(s.motor.state, s.clock.step) && s.loader.maskStrobe)
    ensures Tick(s, i).loader.max == s.loader.max && Tick(s, i).loader.max2 == s.loader.max2
  {
    hide NextMotor, NextClock, NextBacklash, NextSettings, NextSlack;
  }

  /** A load that is held is taken once. */
  lemma {:induction false} HeldLoadIsTakenOnce(s: Regs, i: Ctrl, ins: seq<Ctrl>, last: Ctrl)
    requires LoadTiming.LoadAccepted(s, i) && forall k :: 0 <= k < |ins| ==> ins[k].loadStrobe
    ensures !LoadTiming.LoadAccepted(Exec(Tick(s, i), ins), last)
  {
    LoadSeen(s, i);
    hide Tick;
    StrobeIsRemembered(Tick(s, i), ins);
  }

  lemma LoadSeen(s: Regs, i: Ctrl)
    requires LoadTiming.LoadAccepted(s, i) || (s.loader.pulseLoad && i.loadStrobe)
    ensures Tick(s, i).loader.pulseLoad
  {
    hide NextMotor, NextClock, NextBacklash, NextSettings, NextSlack;
  }

  lemma {:induction false} StrobeIsRemembered(s: Regs, ins: seq<Ctrl>)
    requires s.loader.pulseLoad && forall k :: 0 <= k < |ins| ==> ins[k].loadStrobe
    ensures Exec(s, ins).loader.pulseLoad
    decreases |ins|
  {
    if ins != [] {
      LoadSeen(s, ins[0]);
      hide Tick;
      StrobeIsRemembered(Tick(s, ins[0]), ins[1..]);
    }
  }

  /** A strobe that goes down while the loader listens arms it for the next load. */
  lemma LoadIsArmed(s: Regs, i: Ctrl)
    requires s.loader.state == Normal && Listening(s.motor.state, s.clock.step) && !i.loadStrobe
    requires LoadRequest(s.loader, i, s.motor.state, s.clock.step, s.position) == Nothing
    ensures !Tick(s, i).loader.pulseLoad
  {
    hide NextMotor, NextClock, NextBacklash, NextSettings, NextSlack;
  }

  /** The correction for periodic errors is sampled in every state. */
  lemma PecIsSampled(s: Regs, i: Ctrl)
    ensures Tick(s, i).settings.trackPec == i.pec
  {
    hide NextMotor, NextClock, NextBacklash, NextLoader, NextSlack, NextPosition;
  }

  /** Units per step: a full step has 32 units without and 64 with the finer driver. */
  lemma UnitsPerStep(mode: nat)
    ensures mode <= 5 ==> DeltaOf(mode, false) * Pow2(mode) == 32
    ensures 3 <= mode <= 6 ==> DeltaOf(mode, true) * Pow2(mode) == 64
    ensures mode > 5 ==> DeltaOf(mode, false) == 1
    ensures mode < 3 || mode > 6 ==> DeltaOf(mode, true) == 1
  {
    assert Pow2(0) == 1 && Pow2(1) == 2 && Pow2(2) == 4 && Pow2(3) == 8 && Pow2(4) == 16 && Pow2(5) == 32;
    assert Pow2(6) == 64;
  }

  // ---------------------------------------------------------------------------------
  // A turn
  // ---------------------------------------------------------------------------------

  /** The backlash ports hold these values. */
  predicate Takes(i: Ctrl, tick: Word30, duration: Word30, mode: nat) {
    i.backlashTick == tick && i.backlashDuration == duration && i.backlashMode == mode
  }

  /** The backlash machine waits for a turn. */
  predicate Seeks(s: Regs) {
    s.backlash.state == Seek && s.slack.duration != 0 && s.slack.durationIn != 0
  }

  /** A motor that has just been told to turn the other way, with backlash to take up: three ticks
      later the episode begins, with the values of the ports. */
  lemma TurnStartsEpisode(s: Regs, i: Ctrl, j: Ctrl, k: Ctrl, tick: Word30, duration: Word30, mode: nat)
    requires Seeks(s) && duration != 0 && s.trigger != Direction && s.trigger != DirectionSpeed
    requires s.motor.direction != s.pipe.dir0 == s.pipe.dir1
    requires Takes(i, tick, duration, mode) && Takes(j, tick, duration, mode) && Takes(k, tick, duration, mode)
    ensures var u := Tick(Tick(s, i), j);
            var e := Tick(u, k);
            && BacklashEpisode.Enters(u, k)
            && e.slack.duration == duration && e.slack.tick == tick && e.slack.mode == mode
            && e.backlash.period == tick && e.backlash.modeOut == mode
  {
    hide NextMotor, NextClock, NextLoader, NextPosition, NextSettings;
  }

  predicate Turns(s: Regs) {
    s.trigger == Direction || s.trigger == DirectionSpeed
  }

  /** Without a turn the machine waits for one exactly while there is backlash to take up. */
  lemma WaitsForTurn(s: Regs, i: Ctrl)
    requires s.backlash.state == Seek || s.backlash.state == Disabled
    requires !Turns(s)
    ensures Tick(s, i).backlash.state == if s.slack.duration == 0 then Disabled else Seek
  {
    hide NextMotor, NextClock, NextLoader, NextPosition, NextSettings;
  }

  /** No episode is running, and none begins. */
  predicate Undisturbed(s: Regs) {
    s.backlash.state != Processing && !(s.backlash.state == Seek && Turns(s))
  }

  /** With backlash or without, outside episodes: a new speed is in counter_buf three ticks later, a
      new mode in current_mode_out two ticks later. */
  lemma SpeedArrives(s: Regs, i: Ctrl, j: Ctrl, k: Ctrl)
    requires Undisturbed(Tick(s, i)) && Undisturbed(Tick(Tick(s, i), j))
    ensures var t := Tick(Tick(s, i), j);
            && t.backlash.modeOut == s.motor.mode
            && Tick(t, k).backlash.period == s.motor.speed
  {
    hide NextMotor, NextClock, NextLoader, NextPosition, NextSettings, NextSlack;
  }

  /** The whole turn: the step clock runs on the backlash period for exactly the duration and one
      tick, in the backlash mode, and no step is counted meanwhile. */
  lemma TurnTakesUpBacklash(s: Regs, i: Ctrl, j: Ctrl, k: Ctrl, ins: seq<Ctrl>, n: nat,
                            tick: Word30, duration: Word30, mode: nat)
    requires Seeks(s) && duration != 0 && s.trigger != Direction && s.trigger != DirectionSpeed
    requires s.motor.direction != s.pipe.dir0 == s.pipe.dir1
    requires Takes(i, tick, duration, mode) && Takes(j, tick, duration, mode) && Takes(k, tick, duration, mode)
    requires |ins| == duration + 2 && n <= duration
    ensures var e := Tick(Tick(Tick(s, i), j), k);
            && Exec(e, ins[..n]).backlash.state == Processing
            && Exec(e, ins[..duration + 1]).backlash.state == Done
            && Exec(e, ins).backlash.state == Seek
            && Steps(e, ins[..duration + 1]) == 0
  {
    TurnStartsEpisode(s, i, j, k, tick, duration, mode);
    hide Tick;
    BacklashEpisode.Episode(Tick(Tick(s, i), j), k, ins, n);
  }
}
