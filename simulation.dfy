// The fixed-timestep simulation loop: a rod topples, breaks once when the
// stress proxy exceeds the break strength, and afterwards a stub keeps
// rotating while the top piece flies until it touches the ground.

module Simulation {
  import opened Geometry
  import opened Physics

  /** A recorded pose of the bottom piece, tagged with whether it precedes the break. */
  datatype BottomFrame = BottomFrame(seg: Segment, preBreak: bool)

  /**
   * Everything the loop updates: the rod (the stub after the break), the
   * clock, the break flag, the stub's length and the top piece, the two
   * histories, and whether the loop has stopped on ground contact.
   */
  datatype State = State(theta: real, omega: real, t: real, broke: bool,
                         bottomLen: real, top: TopPiece,
                         framesBottom: seq<BottomFrame>, framesTop: seq<Segment>,
                         landed: bool)

  /** The simulated time after the clock has been advanced n times by dt. */
  function Clock(n: nat, dt: real): real
    decreases n
  {
    if n == 0 then 0.0 else Clock(n - 1, dt) + dt
  }

  /** Advancing the clock n times by dt is the same as advancing it once by n*dt. */
  lemma {:induction false} ClockIsLinear(n: nat, dt: real)
    ensures Clock(n, dt) == (n as real) * dt
  {
    if n > 0 {
      ClockIsLinear(n - 1, dt);
      assert ((n - 1) as real) * dt + dt == (n as real) * dt;
    }
  }

  lemma MulMonotone(a: real, b: real, c: real)
    requires c > 0.0 && b * c < a * c
    ensures b < a
  {
    assert (a - b) * c == a * c - b * c;
  }

  /** A whole number below maxTime/dt is at most its floor. */
  lemma BelowBudget(n: nat, dt: real, maxTime: real)
    requires dt > 0.0 && (n as real) * dt < maxTime
    ensures n <= (maxTime / dt).Floor
  {
    var x := maxTime / dt;
    assert x * dt == maxTime;
    MulMonotone(x, n as real, dt);
  }

  /** A count of steps that has not used up the time budget is at most the budget in steps. */
  lemma TicksWithinBudget(n: nat, dt: real, maxTime: real)
    requires dt > 0.0 && Clock(n, dt) < maxTime
    ensures n <= (maxTime / dt).Floor
  {
    ClockIsLinear(n, dt);
    BelowBudget(n, dt, maxTime);
  }

  /** Number of post-break frames in a bottom history. */
  function PostBreakFrames(fb: seq<BottomFrame>): (n: nat)
    ensures n <= |fb|
    decreases |fb|
  {
    if fb == [] then 0
    else PostBreakFrames(fb[..|fb| - 1]) + (if fb[|fb| - 1].preBreak then 0 else 1)
  }

  /** The pre-break frames form a prefix and the post-break frames the rest of the history. */
  ghost predicate TagsOrdered(fb: seq<BottomFrame>) {
    forall i :: 0 <= i < |fb| ==> (fb[i].preBreak <==> i < |fb| - PostBreakFrames(fb))
  }

  /** Number of completed clock advances: the landing iteration does not advance the clock. */
  function Ticks(s: State): int {
    |s.framesBottom| - (if s.landed then 1 else 0)
  }

  /** The state before the first iteration. */
  function Initial(cfg: Config): State {
    State(cfg.theta0, 0.0, 0.0, false, 0.0, TopPiece(0.0, 0.0, 0.0, 0.0, 0.0, 0.0, 0.0),
          [], [], false)
  }

  /** The record, if any, that the clipper leaves for the final top-piece frame. */
  function ClippedRecord(s: Segment): (r: seq<Segment>)
    ensures |r| <= 1
    ensures forall i :: 0 <= i < |r| ==> AboveGround(r[i])
    ensures AboveGround(s) ==> r == [s]
  {
    match ClipToGround(s)
    case Some(c) => [c]
    case None => []
  }

  /** The break event: split the rod and launch the top piece from it. */
  function BreakNow(cfg: Config, trig: Trig, s: State): State {
    s.(broke := true, bottomLen := BottomLength(cfg.length),
       top := BreakTopPiece(trig, cfg.length, s.theta, s.omega))
  }

  /** Before the break: the whole rod advances by semi-implicit Euler and is recorded. */
  function AdvanceWhole(cfg: Config, trig: Trig, s: State): State
    requires ValidConfig(cfg)
  {
    var (theta, omega) := PendulumStep(cfg.g, cfg.length, cfg.dt, s.theta, s.omega, trig.sin(s.theta));
    s.(theta := theta, omega := omega, t := s.t + cfg.dt,
       framesBottom := s.framesBottom + [BottomFrame(RodEndpoints(trig, cfg.length, theta, 0.0, 0.0), true)])
  }

  /** After the break the stub advances like the whole rod, with its own length. */
  function AdvanceStub(cfg: Config, trig: Trig, s: State): (r: State)
    requires ValidConfig(cfg) && s.bottomLen > 0.0
    ensures r.top == s.top && r.framesTop == s.framesTop && r.t == s.t
    ensures r.broke == s.broke && r.bottomLen == s.bottomLen && r.landed == s.landed
  {
    var (theta, omega) := PendulumStep(cfg.g, s.bottomLen, cfg.dt, s.theta, s.omega, trig.sin(s.theta));
    s.(theta := theta, omega := omega,
       framesBottom := s.framesBottom + [BottomFrame(RodEndpoints(trig, s.bottomLen, theta, 0.0, 0.0), false)])
  }

  /**
   * After the break the top piece takes a flight step and is recorded; on
   * ground contact it is recorded clipped and the loop stops without
   * advancing the clock.
   */
  function AdvanceTop(cfg: Config, trig: Trig, s: State): (r: State)
    ensures r.theta == s.theta && r.omega == s.omega && r.framesBottom == s.framesBottom
    ensures r.broke == s.broke && r.bottomLen == s.bottomLen
  {
    var top := FlightStep(s.top, cfg.g, cfg.dt);
    var seg := TopSegment(trig, top);
    if TouchesGround(seg) then
      s.(top := top, framesTop := s.framesTop + ClippedRecord(seg), landed := true)
    else
      s.(top := top, framesTop := s.framesTop + [seg], t := s.t + cfg.dt)
  }

  /** One iteration of the loop: the break check, then the pre- or post-break update. */
  function Next(cfg: Config, trig: Trig, s: State): State
    requires ValidConfig(cfg) && (s.broke ==> s.bottomLen > 0.0)
  {
    var s1 := if BreakFires(s.broke, StressProxy(cfg.length, trig.sin(s.theta)), cfg.breakStrength)
              then BreakNow(cfg, trig, s) else s;
    if !s1.broke then AdvanceWhole(cfg, trig, s1) else AdvanceTop(cfg, trig, AdvanceStub(cfg, trig, s1))
  }

  /** The invariant of every state the loop reaches. */
  ghost predicate Inv(cfg: Config, trig: Trig, s: State) {
    ValidConfig(cfg)
    && Ticks(s) >= 0 && s.t == Clock(Ticks(s), cfg.dt)
    && (s.landed ==> s.broke)
    && TagsOrdered(s.framesBottom)
    && (!s.broke ==> PostBreakFrames(s.framesBottom) == 0 && s.framesTop == [])
    && (s.broke ==>
          s.bottomLen == BottomLength(cfg.length) && s.top.len == TopLength(cfg.length)
          && PostBreakFrames(s.framesBottom) > 0)
    // one top frame per flight step, save a final one the clipper dropped
    && |s.framesTop| <= PostBreakFrames(s.framesBottom)
    && (!s.landed ==> |s.framesTop| == PostBreakFrames(s.framesBottom))
    && (s.landed ==> PostBreakFrames(s.framesBottom) <= |s.framesTop| + 1)
    // while the top piece flies its latest pose is the latest frame; on landing it touches ground
    && (s.broke && !s.landed ==> s.framesTop[|s.framesTop| - 1] == TopSegment(trig, s.top))
    && (s.landed ==> TouchesGround(TopSegment(trig, s.top)))
    // every top frame is at or above ground, and all but a final landing one strictly above
    && (forall i :: 0 <= i < |s.framesTop| ==> AboveGround(s.framesTop[i]))
    && (forall i :: 0 <= i < |s.framesTop| && (!s.landed || i < |s.framesTop| - 1) ==>
          Airborne(s.framesTop[i]))
  }

  /** Appending a frame adds one to the post-break count exactly when it is a post-break frame. */
  lemma PostBreakFramesAppend(fb: seq<BottomFrame>, f: BottomFrame)
    ensures PostBreakFrames(fb + [f]) == PostBreakFrames(fb) + (if f.preBreak then 0 else 1)
  {
    assert (fb + [f])[..|fb|] == fb;
  }

  /** Appending a frame whose tag matches the phase keeps the tags ordered. */
  lemma TagsOrderedAppend(fb: seq<BottomFrame>, f: BottomFrame)
    requires TagsOrdered(fb)
    requires f.preBreak ==> PostBreakFrames(fb) == 0
    ensures TagsOrdered(fb + [f])
  {
    PostBreakFramesAppend(fb, f);
  }

  lemma InitialInv(cfg: Config, trig: Trig)
    requires ValidConfig(cfg)
    ensures Inv(cfg, trig, Initial(cfg))
    ensures var s := Initial(cfg);
            s.theta == cfg.theta0 && s.omega == 0.0 && s.t == 0.0 && !s.broke && !s.landed
            && s.framesBottom == [] && s.framesTop == []
  {
  }

  /**
   * The break: it fires only while unbroken and only when the stress proxy of
   * the current angle exceeds the break strength, and it can never be undone.
   * On firing the split conserves length and the top piece starts from the
   * rod's angle and angular velocity (and has then taken its first flight step).
   */
  lemma NextBreak(cfg: Config, trig: Trig, s: State)
    requires ValidConfig(cfg) && (s.broke ==> s.bottomLen > 0.0)
    ensures var s' := Next(cfg, trig, s);
            s'.broke == (s.broke || StressProxy(cfg.length, trig.sin(s.theta)) > cfg.breakStrength)
    ensures var s' := Next(cfg, trig, s);
            !s.broke && s'.broke ==>
              s'.bottomLen == BottomLength(cfg.length)
              && s'.bottomLen + s'.top.len == cfg.length
              && s'.top == FlightStep(BreakTopPiece(trig, cfg.length, s.theta, s.omega), cfg.g, cfg.dt)
              && s'.top.omega == s.omega
              && s'.top.angle == s.theta + s.omega * cfg.dt
  {
  }

  /**
   * After the break the stub's length, the top piece's length, horizontal
   * velocity and spin never change; each step lowers the vertical velocity by
   * g*dt and turns the top piece by its spin times dt.
   */
  lemma NextAfterBreak(cfg: Config, trig: Trig, s: State)
    requires ValidConfig(cfg) && s.broke && s.bottomLen > 0.0
    ensures var s' := Next(cfg, trig, s);
            s'.broke && s'.bottomLen == s.bottomLen
            && s'.top.len == s.top.len && s'.top.vx == s.top.vx && s'.top.omega == s.top.omega
            && s'.top.vy == s.top.vy - cfg.g * cfg.dt
            && s'.top.angle == s.top.angle + s.top.omega * cfg.dt
            && s'.top == FlightStep(s.top, cfg.g, cfg.dt)
  {
  }

  /**
   * The rod (before the break) or the stub (after it) takes one semi-implicit
   * Euler step, with the length of the whole rod or of the stub.
   */
  lemma NextRod(cfg: Config, trig: Trig, s: State)
    requires ValidConfig(cfg) && (s.broke ==> s.bottomLen > 0.0)
    ensures var s' := Next(cfg, trig, s);
            var len := if s'.broke then s'.bottomLen else cfg.length;
            len > 0.0
            && (s'.theta, s'.omega) == PendulumStep(cfg.g, len, cfg.dt, s.theta, s.omega, trig.sin(s.theta))
  {
  }

  /**
   * The histories are append-only: each iteration appends exactly one bottom
   * frame, tagged pre-break exactly when the rod is still whole and showing the
   * rod (or stub) at its new angle, and at most one top frame, none before
   * the break.
   */
  lemma NextHistories(cfg: Config, trig: Trig, s: State)
    requires ValidConfig(cfg) && (s.broke ==> s.bottomLen > 0.0)
    ensures var s' := Next(cfg, trig, s);
            var len := if s'.broke then s'.bottomLen else cfg.length;
            s'.framesBottom == s.framesBottom + [BottomFrame(RodEndpoints(trig, len, s'.theta, 0.0, 0.0), !s'.broke)]
    ensures var s' := Next(cfg, trig, s);
            |s.framesTop| <= |s'.framesTop| <= |s.framesTop| + 1
            && s'.framesTop[..|s.framesTop|] == s.framesTop
            && (!s'.broke ==> s'.framesTop == s.framesTop)
  {
  }

  /**
   * Ground contact: after the break the loop stops exactly when a top endpoint
   * is at or below ground; the final top frame is then the clipped pose (or
   * none), and the clock is not advanced. Otherwise the pose is recorded
   * unclipped and the clock advances by dt.
   */
  lemma NextLanding(cfg: Config, trig: Trig, s: State)
    requires ValidConfig(cfg) && (s.broke ==> s.bottomLen > 0.0) && !s.landed
    ensures var s' := Next(cfg, trig, s);
            var seg := TopSegment(trig, s'.top);
            s'.landed == (s'.broke && TouchesGround(seg))
            && (s'.landed ==> s'.framesTop == s.framesTop + ClippedRecord(seg) && s'.t == s.t)
            && (s'.broke && !s'.landed ==> s'.framesTop == s.framesTop + [seg])
            && (!s'.landed ==> s'.t == s.t + cfg.dt)
  {
  }

  /** Every iteration from a reachable state leads to a reachable state. */
  lemma NextKeepsInv(cfg: Config, trig: Trig, s: State)
    requires Inv(cfg, trig, s) && !s.landed
    ensures s.broke ==> s.bottomLen > 0.0
    ensures Inv(cfg, trig, Next(cfg, trig, s))
  {
    var s' := Next(cfg, trig, s);
    NextHistories(cfg, trig, s);
    NextLanding(cfg, trig, s);
    NextBreak(cfg, trig, s);
    var f := s'.framesBottom[|s'.framesBottom| - 1];
    assert s'.framesBottom == s.framesBottom + [f];
    TagsOrderedAppend(s.framesBottom, f);
    PostBreakFramesAppend(s.framesBottom, f);
    assert Ticks(s') == Ticks(s) + (if s'.landed then 0 else 1);
    if s'.broke {
      var seg := TopSegment(trig, s'.top);
      if s'.landed {
        assert s'.framesTop == s.framesTop + ClippedRecord(seg);
      } else {
        assert s'.framesTop == s.framesTop + [seg];
        assert Airborne(seg);
      }
    }
  }

  /**
   * After the break the top piece is where the flight from its launch state
   * has taken it, one flight step per post-break frame, and the break came
   * after the pre-break frames.
   */
  ghost predicate Launched(cfg: Config, s: State, launch: TopPiece, breakTime: real) {
    s.broke ==>
      s.top == Flight(launch, cfg.g, cfg.dt, PostBreakFrames(s.framesBottom))
      && breakTime == Clock(|s.framesBottom| - PostBreakFrames(s.framesBottom), cfg.dt)
  }

  /**
   * An iteration keeps the top piece on the flight path it was launched on;
   * an iteration that breaks the rod launches it from the rod's current
   * angle and angular velocity, at the current time.
   */
  lemma NextKeepsLaunched(cfg: Config, trig: Trig, s: State, launch: TopPiece, breakTime: real)
    requires Inv(cfg, trig, s) && !s.landed && Launched(cfg, s, launch, breakTime)
    requires !s.broke && Next(cfg, trig, s).broke ==>
               launch == BreakTopPiece(trig, cfg.length, s.theta, s.omega) && breakTime == s.t
    ensures Launched(cfg, Next(cfg, trig, s), launch, breakTime)
  {
    if s.broke {
      FlightContinues(cfg, trig, s, launch, breakTime);
    } else if Next(cfg, trig, s).broke {
      FlightStarts(cfg, trig, s);
    }
  }

  /** After the break an iteration adds one post-break frame and one flight step. */
  lemma FlightContinues(cfg: Config, trig: Trig, s: State, launch: TopPiece, breakTime: real)
    requires ValidConfig(cfg) && s.broke && s.bottomLen > 0.0 && Launched(cfg, s, launch, breakTime)
    ensures Launched(cfg, Next(cfg, trig, s), launch, breakTime)
  {
    var s' := Next(cfg, trig, s);
    NextHistories(cfg, trig, s);
    NextAfterBreak(cfg, trig, s);
    PostBreakFramesAppend(s.framesBottom, s'.framesBottom[|s'.framesBottom| - 1]);
  }

  /** The breaking iteration's frame is the first post-break one, after the pre-break frames. */
  lemma FlightStarts(cfg: Config, trig: Trig, s: State)
    requires Inv(cfg, trig, s) && !s.landed && !s.broke && Next(cfg, trig, s).broke
    ensures Launched(cfg, Next(cfg, trig, s), BreakTopPiece(trig, cfg.length, s.theta, s.omega), s.t)
  {
    var s' := Next(cfg, trig, s);
    NextHistories(cfg, trig, s);
    NextBreak(cfg, trig, s);
    PostBreakFramesAppend(s.framesBottom, s'.framesBottom[|s'.framesBottom| - 1]);
    assert s.t == Clock(|s.framesBottom|, cfg.dt);
  }

  /**
   * An iteration taken while time remains: it appends to both histories, one
   * bottom frame more, never undoes the break, and leaves the clock below the
   * budget on landing and less than one step past it otherwise. The bottom
   * history is bounded by the budget in steps.
   */
  lemma NextWithinBudget(cfg: Config, trig: Trig, s: State)
    requires Inv(cfg, trig, s) && !s.landed && s.t < cfg.maxTime
    ensures s.broke ==> s.bottomLen > 0.0
    ensures |s.framesBottom| <= (cfg.maxTime / cfg.dt).Floor
    ensures var s' := Next(cfg, trig, s);
            s.framesBottom < s'.framesBottom && |s'.framesBottom| == |s.framesBottom| + 1
            && s.framesTop <= s'.framesTop
            && (s.broke ==> s'.broke)
            && (s'.landed ==> s'.t < cfg.maxTime)
            && (!s'.landed ==> s'.t < cfg.maxTime + cfg.dt)
  {
    NextKeepsInv(cfg, trig, s);
    TicksWithinBudget(|s.framesBottom|, cfg.dt, cfg.maxTime);
    NextHistories(cfg, trig, s);
    NextLanding(cfg, trig, s);
  }

  /**
   * The loop from a reachable state: iterate until the time budget is spent
   * or the top piece has touched the ground.
   */
  ghost function Loop(cfg: Config, trig: Trig, s: State): State
    requires Inv(cfg, trig, s)
    decreases (cfg.maxTime / cfg.dt).Floor - |s.framesBottom|
  {
    if s.landed || cfg.maxTime <= s.t then s
    else
      NextKeepsInv(cfg, trig, s);
      NextWithinBudget(cfg, trig, s);
      Loop(cfg, trig, Next(cfg, trig, s))
  }

  /**
   * The loop ends in a reachable state, either out of time or on ground
   * contact, having only appended to both histories and never undone the break.
   */
  lemma {:induction false} LoopStops(cfg: Config, trig: Trig, s: State)
    requires Inv(cfg, trig, s)
    ensures var r := Loop(cfg, trig, s);
            Inv(cfg, trig, r) && (r.landed || cfg.maxTime <= r.t)
            && s.framesBottom <= r.framesBottom && s.framesTop <= r.framesTop
            && (s.broke ==> r.broke)
    decreases (cfg.maxTime / cfg.dt).Floor - |s.framesBottom|
  {
    if !(s.landed || cfg.maxTime <= s.t) {
      NextKeepsInv(cfg, trig, s);
      NextWithinBudget(cfg, trig, s);
      LoopStops(cfg, trig, Next(cfg, trig, s));
    }
  }

  /**
   * The proxy never exceeds its value with the sine at full scale, so a break
   * strength at that value or above can never be exceeded.
   */
  lemma ProxyBound(length: real, sinTheta: real)
    requires length >= 0.0 && -1.0 <= sinTheta <= 1.0
    ensures StressProxy(length, sinTheta) <= ProxyScale * (length - length / 3.0)
  {
    var m := length - length / 3.0;
    assert -m <= sinTheta * m <= m;
  }

  /** With such a break strength an unbroken rod stays unbroken for one more iteration. */
  lemma NeverBreaks(cfg: Config, trig: Trig, s: State)
    requires ValidConfig(cfg) && ValidTrig(trig) && !s.broke
    requires cfg.breakStrength >= ProxyScale * (cfg.length - cfg.length / 3.0)
    ensures !Next(cfg, trig, s).broke
  {
    ProxyBound(cfg.length, trig.sin(s.theta));
    NextBreak(cfg, trig, s);
  }

  /**
   * With such a break strength the loop from an unbroken state never breaks:
   * it yields no top-piece history, and it runs until the clock has reached
   * the time budget, not landing early, each frame a whole-rod frame.
   */
  lemma {:induction false} LoopNeverBreaks(cfg: Config, trig: Trig, s: State)
    requires Inv(cfg, trig, s) && ValidTrig(trig) && !s.broke
    requires cfg.breakStrength >= ProxyScale * (cfg.length - cfg.length / 3.0)
    ensures var r := Loop(cfg, trig, s);
            !r.broke && !r.landed && r.framesTop == [] && cfg.maxTime <= r.t
            && r.t == Clock(|r.framesBottom|, cfg.dt)
            && (s.t < cfg.maxTime ==> r.t < cfg.maxTime + cfg.dt)
            && forall i :: 0 <= i < |r.framesBottom| ==> r.framesBottom[i].preBreak
    decreases (cfg.maxTime / cfg.dt).Floor - |s.framesBottom|
  {
    if cfg.maxTime <= s.t {
      assert !s.landed;
    } else {
      NextKeepsInv(cfg, trig, s);
      NextWithinBudget(cfg, trig, s);
      NeverBreaks(cfg, trig, s);
      LoopNeverBreaks(cfg, trig, Next(cfg, trig, s));
    }
  }

  /**
   * The run from the start with such a break strength: nothing but whole-rod
   * frames are recorded, one per clock step, and the clock stops at the first
   * step that reaches the budget, so the frames cover [0, max_time) at step dt
   * (by ClockIsLinear the clock after n steps is n*dt).
   */
  lemma NoBreakRun(cfg: Config, trig: Trig)
    requires ValidConfig(cfg) && ValidTrig(trig)
    requires cfg.breakStrength >= ProxyScale * (cfg.length - cfg.length / 3.0)
    ensures Inv(cfg, trig, Initial(cfg))
    ensures var r := Loop(cfg, trig, Initial(cfg));
            var n := |r.framesBottom|;
            !r.broke && r.framesTop == []
            && (forall i :: 0 <= i < n ==> r.framesBottom[i].preBreak)
            && r.t == Clock(n, cfg.dt) && cfg.maxTime <= r.t
            && (0.0 < cfg.maxTime ==> Clock(n, cfg.dt) < cfg.maxTime + cfg.dt)
  {
    InitialInv(cfg, trig);
    LoopNeverBreaks(cfg, trig, Initial(cfg));
  }

  /** A clock that has just reached the budget has taken one step per dt of it. */
  lemma StepsCoverBudget(n: nat, dt: real, maxTime: real)
    requires maxTime <= Clock(n, dt)
    requires 0.0 < maxTime ==> Clock(n, dt) < maxTime + dt
    ensures maxTime <= (n as real) * dt
    ensures 0.0 < maxTime ==> ((n - 1) as real) * dt < maxTime
  {
    ClockIsLinear(n, dt);
    assert ((n - 1) as real) * dt == (n as real) * dt - dt;
  }

  /** The chimney simulation: the loop's variables and its two histories. */
  class Chimney {
    const cfg: Config
    const trig: Trig

    // the rod before the break, the stub after it, and the clock
    var theta: real
    var omega: real
    var t: real
    var broke: bool

    // set by the break: the stub's length and the top piece
    var bottomLen: real
    var top: TopPiece

    // the two append-only histories
    var framesBottom: seq<BottomFrame>
    var framesTop: seq<Segment>

    // the top piece has touched the ground and the loop has stopped
    var landed: bool

    // the rod's angle and angular velocity, and the time, at the break
    ghost var breakTheta: real
    ghost var breakOmega: real
    ghost var breakTime: real

    /** The loop's variables as a value. */
    ghost function Snapshot(): State
      reads this
    {
      State(theta, omega, t, broke, bottomLen, top, framesBottom, framesTop, landed)
    }

    /** The top piece as it left the rod. */
    ghost function AtBreak(): TopPiece
      reads this
    {
      BreakTopPiece(trig, cfg.length, breakTheta, breakOmega)
    }

    /**
     * The state is reachable, and after the break the top piece is where the
     * flight from its launch state has taken it, one flight step per
     * post-break iteration; the break happened after the pre-break iterations.
     */
    ghost predicate Valid()
      reads this
    {
      Inv(cfg, trig, Snapshot()) && Launched(cfg, Snapshot(), AtBreak(), breakTime)
    }

    /** The variables before the loop starts. */
    constructor (cfg: Config, trig: Trig)
      requires ValidConfig(cfg)
      ensures Valid()
      ensures this.cfg == cfg && this.trig == trig
      ensures Snapshot() == Initial(cfg)
    {
      this.cfg := cfg;
      this.trig := trig;
      theta, omega, t := cfg.theta0, 0.0, 0.0;
      broke, landed := false, false;
      bottomLen := 0.0;
      top := TopPiece(0.0, 0.0, 0.0, 0.0, 0.0, 0.0, 0.0);
      framesBottom, framesTop := [], [];
      breakTheta, breakOmega, breakTime := 0.0, 0.0, 0.0;
      new;
      InitialInv(cfg, trig);
    }

    /** The break event: split the rod and launch the top piece from it. */
    method BreakEvent()
      requires !broke
      modifies this
      ensures Snapshot() == BreakNow(cfg, trig, old(Snapshot()))
      ensures breakTheta == old(theta) && breakOmega == old(omega) && breakTime == old(t)
    {
      broke := true;
      bottomLen := BottomLength(cfg.length);
      top := BreakTopPiece(trig, cfg.length, theta, omega);
      breakTheta, breakOmega, breakTime := theta, omega, t;
    }

    /** Before the break: the whole rod rotates and is recorded, and the clock advances. */
    method RotateWhole()
      requires ValidConfig(cfg)
      modifies this`omega, this`theta, this`framesBottom, this`t
      ensures Snapshot() == AdvanceWhole(cfg, trig, old(Snapshot()))
    {
      var next := PendulumStep(cfg.g, cfg.length, cfg.dt, theta, omega, trig.sin(theta));
      theta, omega := next.0, next.1;
      framesBottom := framesBottom + [BottomFrame(RodEndpoints(trig, cfg.length, theta, 0.0, 0.0), true)];
      t := t + cfg.dt;
    }

    /** After the break: the stub rotates with its own length and is recorded. */
    method RotateStub()
      requires ValidConfig(cfg) && bottomLen > 0.0
      modifies this`omega, this`theta, this`framesBottom
      ensures Snapshot() == AdvanceStub(cfg, trig, old(Snapshot()))
    {
      var next := PendulumStep(cfg.g, bottomLen, cfg.dt, theta, omega, trig.sin(theta));
      theta, omega := next.0, next.1;
      framesBottom := framesBottom + [BottomFrame(RodEndpoints(trig, bottomLen, theta, 0.0, 0.0), false)];
    }

    /**
     * After the break: the top piece flies and spins; its pose is recorded, or
     * on ground contact recorded clipped, and then the loop is told to stop.
     */
    method FlyTop()
      modifies this`top, this`framesTop, this`t, this`landed
      ensures Snapshot() == AdvanceTop(cfg, trig, old(Snapshot()))
    {
      top := FlightStep(top, cfg.g, cfg.dt);
      var seg := TopSegment(trig, top);
      if seg.y1 <= 0.0 || seg.y2 <= 0.0 {
        var clipped := ClipToGround(seg);
        if clipped.Some? {
          framesTop := framesTop + [clipped.value];
        }
        landed := true;
      } else {
        framesTop := framesTop + [seg];
        t := t + cfg.dt;
      }
    }

    /** One iteration of the loop body. */
    method Step()
      requires Valid() && !landed
      modifies this
      ensures Valid()
      ensures Snapshot() == Next(cfg, trig, old(Snapshot()))
      ensures old(broke) ==> breakTheta == old(breakTheta) && breakOmega == old(breakOmega)
                             && breakTime == old(breakTime)
      ensures !old(broke) && broke ==> breakTheta == old(theta) && breakOmega == old(omega)
                                       && breakTime == old(t)
    {
      ghost var s0 := Snapshot();
      ghost var launch0 := AtBreak();
      NextKeepsInv(cfg, trig, s0);
      var bendingForce := StressProxy(cfg.length, trig.sin(theta));
      if !broke && bendingForce > cfg.breakStrength {
        BreakEvent();
      }
      if !broke {
        RotateWhole();
      } else {
        RotateStub();
        FlyTop();
      }
      assert Snapshot() == Next(cfg, trig, s0);
      NextKeepsLaunched(cfg, trig, s0, AtBreak(), breakTime);
    }

    /**
     * The loop: step until the time budget is spent or the top piece touches
     * the ground. The final state is the one the loop computes.
     */
    method Run()
      requires Valid() && !landed
      modifies this
      ensures Valid()
      ensures Snapshot() == Loop(cfg, trig, old(Snapshot()))
      ensures landed || cfg.maxTime <= t
      ensures landed ==> t < cfg.maxTime
      ensures old(t) < cfg.maxTime ==> t < cfg.maxTime + cfg.dt
      ensures old(framesBottom) <= framesBottom && old(framesTop) <= framesTop
      ensures old(broke) ==> broke
    {
      ghost var s0 := Snapshot();
      while t < cfg.maxTime
        invariant Valid() && !landed && Inv(cfg, trig, s0)
        invariant Loop(cfg, trig, Snapshot()) == Loop(cfg, trig, s0)
        invariant old(t) < cfg.maxTime ==> t < cfg.maxTime + cfg.dt
        invariant old(framesBottom) <= framesBottom && old(framesTop) <= framesTop
        invariant old(broke) ==> broke
        decreases (cfg.maxTime / cfg.dt).Floor - |framesBottom|
      {
        NextWithinBudget(cfg, trig, Snapshot());
        Step();
        if landed {
          break;
        }
      }
    }
  }

  /**
   * The whole simulation: start from the configured angle at rest and run the
   * loop. The final state is the loop run from the initial state; it has
   * either used its time budget or stopped on ground contact; without a break
   * there is no top-piece history, and a break strength the proxy cannot
   * exceed gives no break.
   */
  method Simulate(cfg: Config, trig: Trig) returns (c: Chimney)
    requires ValidConfig(cfg)
    ensures Inv(cfg, trig, Initial(cfg)) && c.Snapshot() == Loop(cfg, trig, Initial(cfg))
    ensures c.Valid() && c.cfg == cfg && c.trig == trig
    ensures c.landed || cfg.maxTime <= c.t
    ensures c.landed ==> c.t < cfg.maxTime
    ensures 0.0 < cfg.maxTime ==> c.t < cfg.maxTime + cfg.dt
    ensures !c.broke ==> c.framesTop == [] && forall i :: 0 <= i < |c.framesBottom| ==> c.framesBottom[i].preBreak
    ensures c.broke ==> c.bottomLen + c.top.len == cfg.length
    ensures forall i :: 0 <= i < |c.framesTop| ==> AboveGround(c.framesTop[i])
    ensures |c.framesTop| <= PostBreakFrames(c.framesBottom)
    ensures ValidTrig(trig) && cfg.breakStrength >= ProxyScale * (cfg.length - cfg.length / 3.0) ==>
              !c.broke && c.framesTop == []
  {
    c := new Chimney(cfg, trig);
    c.Run();
    if c.broke {
      SplitLengths(cfg.length);
    }
    if ValidTrig(trig) && cfg.breakStrength >= ProxyScale * (cfg.length - cfg.length / 3.0) {
      NoBreakRun(cfg, trig);
    }
  }
}
