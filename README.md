# Falling chimney, modelled in Dafny

This project models `JYPT_ChimneySimulate.py`, a fixed-timestep simulation of a
chimney toppling about its base. The chimney is a rigid rod. It rotates by a
pendulum law until a bending-force proxy exceeds the break strength. It then
breaks once, at 0.33 of its length. After the break, the stub keeps rotating
about the pivot and the top piece flies off as a spinning projectile. The loop
stops when the top piece touches the ground, and the final pose of the top
piece is clipped to the ground first.

It has three modules:

- `Geometry` (`geometry.dfy`) covers the segment helpers `rod_endpoints` and
  `top_piece_endpoints`, and the ground clipper `clip_to_ground`. These are
  pure functions with lemmas about them. Sine and cosine are carried in a
  `Trig` value, and the model uses only two facts about them: their bounds and
  `sin² + cos² = 1` (`ValidTrig`).
- `Physics` (`physics.dfy`) covers the pendulum law and its semi-implicit Euler
  step, the stress proxy, the split of the rod, and the top piece's launch
  state. It also covers the top piece's flight step, with a closed form for
  the flight after any number of steps.
- `Simulation` (`simulation.dfy`) covers the loop body and the loop itself:
  - The loop body is the value-level function `Next` over a `State`. `Next` is
    built from `BreakNow`, `AdvanceWhole`, `AdvanceStub` and `AdvanceTop`.
  - `Inv` is the invariant of every reachable state, and lemmas about `Next`
    state what one iteration does.
  - `Loop` is the loop itself on values: it applies `Next` until the top piece
    lands or the time budget is spent.
  - The class `Chimney` holds the loop's variables as fields. Its methods follow
    the loop body one block at a time. Each block method and `Step` is proved
    to produce exactly the state that its value-level function gives. `Run`'s
    `while` loop terminates, and its final state is `Loop` of its starting
    state. `Simulate` ends in `Loop` of the initial state.

The flight state of the top piece is the `TopPiece` value that `Chimney.top`
holds. It contains the centre, the velocity, the angle, the spin and the
length. The sequence of pre-break and post-break bottom frames is tracked by
`PostBreakFrames` and `TagsOrdered`.

## Model

| member | source | states |
|---|---|---|
| Geometry.RodEndpoints | JYPT_ChimneySimulate.py:21-26 | the first endpoint is the pivot `base` |
| Geometry.RodEndpointsLength | JYPT_ChimneySimulate.py:21-26 | when sin² + cos² = 1, the rod segment has exactly the given length |
| Geometry.TopPieceEndpoints | JYPT_ChimneySimulate.py:28-34 | the midpoint of the segment is exactly the given centre |
| Geometry.TopPieceEndpointsLength | JYPT_ChimneySimulate.py:28-34 | when sin² + cos² = 1, the top-piece segment has exactly the given length |
| Geometry.ClipToGround | JYPT_ChimneySimulate.py:36-58 | any result lies at or above y = 0; the segment comes back unchanged exactly when both ends are at or above ground; there is no result exactly when both ends are at or below ground and not both on it; a changed result comes only from a segment that straddles the ground |
| Geometry.ClipStraddling | JYPT_ChimneySimulate.py:47-58 | for a straddling segment: the heights differ, so the defensive `None` is unreachable; the crossing parameter lies strictly inside (0, 1) and gives height 0; the crossing x lies between x1 and x2; exactly the underground endpoint is replaced by the crossing, and the other endpoint is kept |
| Geometry.ClipKeepsVisiblePart | JYPT_ChimneySimulate.py:37-58 | a point of a straddling segment is at or above ground exactly when it lies between the crossing and the kept endpoint, so the clip keeps the whole visible part and nothing else |
| Geometry.ClipSymmetricExample | JYPT_ChimneySimulate.py:47-56 | a segment running from height -1 to height +1 is cut at parameter 0.5, and its lower end moves to the ground |
| Geometry.ClipIdempotent | JYPT_ChimneySimulate.py:37-43 | clipping a clipped segment again returns it unchanged |
| Physics.DefaultConfig | JYPT_ChimneySimulate.py:5-10 | the configured run has g = 9.81, L = 50, break strength 20000, a release angle of 5 degrees (π/36), dt = 0.01 and 8 s of budget, and it is a valid configuration |
| Physics.PendulumStepSemiImplicit | JYPT_ChimneySimulate.py:62-88 | the angular velocity gains α·dt first, and the angle then moves with the new angular velocity, i.e. by ω·dt + α·dt²; a rod at rest where sin θ = 0 stays at rest |
| Physics.StubAcceleration | JYPT_ChimneySimulate.py:97-98 | the stub's angular acceleration is the whole rod's divided by the break ratio 0.33 |
| Physics.StressProxy | JYPT_ChimneySimulate.py:64 | the bending-force proxy is never negative, and for a rod of nonzero length it is zero exactly when sin θ is zero |
| Physics.SplitLengths | JYPT_ChimneySimulate.py:69-71 | the bottom length plus the top length is L, and the stub is the shorter piece |
| Physics.BreakTopPiece | JYPT_ChimneySimulate.py:73-80 | the top piece starts with the rod's angle and angular velocity, and its length completes the stub to L |
| Physics.BreakContinuity | JYPT_ChimneySimulate.py:73-80 | at the break, the top piece runs exactly from the stub's tip to the old rod's tip |
| Physics.BreakVelocityTangential | JYPT_ChimneySimulate.py:77-78 | the launch velocity is perpendicular to the radius from the pivot; when sin² + cos² = 1 its speed is \|ω\| times the centre distance d, and v_x·y − v_y·x = ω·d², so it turns in the sense of θ |
| Physics.AngularAcceleration | JYPT_ChimneySimulate.py:62 | the pendulum law α = 3g/(2·length)·sin θ, shared by the whole rod (line 62) and the stub (line 97); `StubAcceleration` relates the two |
| Physics.PendulumStep | JYPT_ChimneySimulate.py:87-88 | the semi-implicit step of lines 87-88 and 98-99; its contract is stated by `PendulumStepSemiImplicit` |
| Physics.FlightStep | JYPT_ChimneySimulate.py:104-107 | one projectile-and-spin step of the top piece; `FlightClosedForm` and its five component lemmas state what k of them do |
| Physics.Flight | JYPT_ChimneySimulate.py:104-107 | k flight steps in a row; `FlightClosedForm` gives the result in closed form |
| Physics.FlightKeepsConstants | JYPT_ChimneySimulate.py:104-107 | over any number of flight steps, v_x, the spin and the top length never change |
| Physics.FlightVerticalVelocity | JYPT_ChimneySimulate.py:104 | after k flight steps, v_y has dropped by exactly k·g·dt |
| Physics.FlightAngle | JYPT_ChimneySimulate.py:107 | after k flight steps, the angle has grown by exactly k·spin·dt |
| Physics.FlightHorizontal | JYPT_ChimneySimulate.py:105 | after k flight steps, the centre has moved by exactly k·v_x·dt horizontally |
| Physics.FlightHeight | JYPT_ChimneySimulate.py:104-106 | after k flight steps, the centre height is y0 + k·v_y0·dt − k(k+1)/2·g·dt² |
| Physics.FlightClosedForm | JYPT_ChimneySimulate.py:104-107 | the whole top-piece state after k flight steps, in closed form |
| Simulation.Clock | JYPT_ChimneySimulate.py:122 | the clock after n advances by dt; `ClockIsLinear` states it is n·dt |
| Simulation.Initial | JYPT_ChimneySimulate.py:12-18 | the state before the first iteration; `InitialInv` states it is reachable |
| Simulation.BreakNow | JYPT_ChimneySimulate.py:67-80 | the break transition; `NextBreak` states its effect within an iteration |
| Simulation.AdvanceWhole | JYPT_ChimneySimulate.py:85-122 | the pre-break update with the clock advance; `NextRod` and `NextHistories` state the new angle, angular velocity and frame, and `NextLanding` the clock |
| Simulation.Next | JYPT_ChimneySimulate.py:61-122 | one iteration of the loop body; its contract is stated by `NextBreak`, `NextRod`, `NextHistories`, `NextLanding`, `NextAfterBreak` and `NextKeepsInv` |
| Simulation.Loop | JYPT_ChimneySimulate.py:61-122 | the loop with its early exit on ground contact; `LoopStops` and `LoopNeverBreaks` state what it computes, and `Chimney.Run` is proved to end in it |
| Simulation.ClockIsLinear | JYPT_ChimneySimulate.py:122 | after n clock advances, t = n·dt |
| Simulation.TicksWithinBudget | JYPT_ChimneySimulate.py:61 | while t = n·dt is below max_time, n is at most ⌊max_time/dt⌋ |
| Simulation.ClippedRecord | JYPT_ChimneySimulate.py:115-117 | the final clipped record is empty or one segment; it lies at or above ground; a segment already above ground is recorded unchanged |
| Simulation.InitialInv | JYPT_ChimneySimulate.py:12-18 | the start state (θ0, ω = 0, t = 0, not broken, empty histories) is reachable |
| Simulation.AdvanceStub | JYPT_ChimneySimulate.py:96-101 | the stub step leaves the top piece, the top history, the clock and the phase untouched |
| Simulation.AdvanceTop | JYPT_ChimneySimulate.py:103-122 | the top-piece step leaves the stub, the bottom history and the phase untouched |
| Simulation.NextBreak | JYPT_ChimneySimulate.py:66-80 | after an iteration, broke holds exactly when it held before or the proxy exceeded the strength, so the break fires at most once and is never undone; on firing, the stub has length 0.33·L, the lengths sum to L, and the top piece starts from the rod's angle and spin and has already taken its first flight step in the same iteration |
| Simulation.NextAfterBreak | JYPT_ChimneySimulate.py:94-107 | after the break, each iteration keeps the stub length, the top length, v_x and the spin; it lowers v_y by g·dt and turns the top piece by spin·dt |
| Simulation.NextRod | JYPT_ChimneySimulate.py:84-99 | the rod takes one semi-implicit Euler step with length L before the break, and the stub takes it with the stub length after |
| Simulation.NextHistories | JYPT_ChimneySimulate.py:90-120 | each iteration appends exactly one bottom frame, showing the rod or stub at its new angle and tagged pre-break exactly while unbroken; it appends at most one top frame, none before the break, and never rewrites earlier frames |
| Simulation.NextLanding | JYPT_ChimneySimulate.py:112-122 | the loop stops exactly when, after the break, a top endpoint is at or below ground; the last top frame is then the clipped pose, or nothing, and the clock does not advance; otherwise the pose is recorded unclipped and t grows by dt |
| Simulation.NextKeepsInv | JYPT_ChimneySimulate.py:61-122 | every iteration from a reachable state reaches a reachable state. In a reachable state: t counts the clock advances; pre-break frames precede post-break frames; the top history is empty before the break and has one frame per post-break iteration, less a final dropped clip; every top frame is at or above ground, and all but a final landing frame strictly above; after landing, the top piece touches the ground |
| Simulation.NextKeepsLaunched | JYPT_ChimneySimulate.py:66-107 | after the break, the top piece is always its launch state flown one step per post-break frame, and the break time is the time of the last pre-break frame |
| Simulation.FlightContinues | JYPT_ChimneySimulate.py:103-107 | a post-break iteration adds one post-break frame and one flight step |
| Simulation.FlightStarts | JYPT_ChimneySimulate.py:66-107 | the breaking iteration launches the top piece from the rod's current state and time, and its bottom frame is the first post-break frame |
| Simulation.NextWithinBudget | JYPT_ChimneySimulate.py:61-122 | an iteration taken while t < max_time extends both histories and never undoes the break; it leaves t below max_time on landing and less than one step past it otherwise; the bottom history never exceeds the budget in steps |
| Simulation.Chimney.constructor | JYPT_ChimneySimulate.py:12-18 | the fields start as the initial state |
| Simulation.Chimney.BreakEvent | JYPT_ChimneySimulate.py:66-80 | sets broke, the stub length and the top piece's launch state, and records the rod's angle, angular velocity and time at the break |
| Simulation.Chimney.RotateWhole | JYPT_ChimneySimulate.py:84-122 | the whole rod steps, is recorded pre-break, and the clock advances |
| Simulation.Chimney.RotateStub | JYPT_ChimneySimulate.py:94-101 | the stub steps with its own length and is recorded post-break |
| Simulation.Chimney.FlyTop | JYPT_ChimneySimulate.py:103-122 | the top piece takes a flight step; on ground contact it is recorded clipped and the loop is told to stop, and otherwise it is recorded and the clock advances |
| Simulation.Chimney.Step | JYPT_ChimneySimulate.py:61-122 | one iteration of the loop body gives exactly `Next` of the old state and keeps `Valid`; the break values are set only by the breaking iteration |
| Simulation.LoopStops | JYPT_ChimneySimulate.py:61-122 | the loop from a reachable state ends in a reachable state, either out of time or on ground contact; it only appends to both histories and never undoes the break |
| Simulation.ProxyBound | JYPT_ChimneySimulate.py:64 | for L ≥ 0 and \|sin θ\| ≤ 1, the proxy never exceeds 1000·(L − L/3) |
| Simulation.NeverBreaks | JYPT_ChimneySimulate.py:64-67 | with \|sin\| ≤ 1 and a break strength of at least 1000·(L − L/3), an unbroken rod stays unbroken after an iteration |
| Simulation.LoopNeverBreaks | JYPT_ChimneySimulate.py:61-122 | with \|sin\| ≤ 1 and such a break strength, the loop from an unbroken state never breaks and never lands; it records no top frame and only pre-break bottom frames, and stops at the first clock step that reaches max_time |
| Simulation.NoBreakRun | JYPT_ChimneySimulate.py:12-122 | with \|sin\| ≤ 1 and such a break strength, the run from the start has an empty top history; its bottom history holds only whole-rod frames, one per clock step, with the clock at or past max_time, and (when max_time > 0) past it by less than dt |
| Simulation.StepsCoverBudget | JYPT_ChimneySimulate.py:61-122 | a clock that has just reached max_time after n steps has n·dt ≥ max_time and (n − 1)·dt < max_time, so the steps cover [0, max_time) at step dt |
| Simulation.Chimney.Run | JYPT_ChimneySimulate.py:61-122 | the final state is exactly `Loop` of the starting state; the loop terminates, either out of time or on ground contact; on contact t is still below max_time; otherwise, when the run starts below max_time, t has passed max_time by less than dt; the histories only grow and the break is never undone |
| Simulation.Simulate | JYPT_ChimneySimulate.py:12-122 | the final state is exactly `Loop` of the initial state. With \|sin\| ≤ 1, a break strength of at least 1000·(L − L/3) gives no break and an empty top history. A whole run ends out of time or on ground contact. Without a break, the top history is empty and every bottom frame is pre-break; with a break, the lengths sum to L. Every top frame is at or above ground, and there are no more top frames than post-break frames |

## Left out

- The console report of the break (line 82) and all plotting (lines 124-151) are not modelled. This includes the thinning of frames to every 10th or 5th for display and the renderer's second use of the clipper.
- Floating-point arithmetic: every `float` is a Dafny `real`, so rounding is not modelled and the clipper's interpolation is exact.
- `np.sin` and `np.cos` are not defined. The model is generic in a `Trig` pair, and only its bounds and `sin² + cos² = 1` (`ValidTrig`) are ever assumed. Claims that need actual sine values are not made, such as when the break happens or whether the top piece lands within 8 s. The no-break case with a break strength the proxy cannot reach needs only \|sin\| ≤ 1 and is proved (`NoBreakRun`).
- `np.deg2rad` is not modelled: θ0 is a configuration value in radians. `DefaultConfig` takes π as a parameter.
- The top piece's centre, velocity, angle, spin and `top_len` are held as one `TopPiece` value field, which each step replaces, rather than as seven separate variables.
- The bottom history is not clipped, because the program clips it only at draw time. Only the top history is guaranteed to stay at or above ground.
- The program runs this code exactly once, at module level, on global variables. Here the globals are the fields of one `Chimney` object, and `Simulate` is the run.
