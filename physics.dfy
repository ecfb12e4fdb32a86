// The physics of the chimney: the pendulum law, the stress proxy that
// triggers the break, the split of the rod and the free flight of the top piece.

module Physics {
  import opened Geometry

  /** Configuration fixed at the start of a run. */
  datatype Config = Config(g: real, length: real, breakStrength: real,
                           theta0: real, dt: real, maxTime: real)

  predicate ValidConfig(c: Config) {
    c.length > 0.0 && c.dt > 0.0
  }

  /**
   * The run the program is set up for: a 50 m chimney released 5 degrees
   * from vertical, stepped every 0.01 s for at most 8 s. The angle is given
   * in radians, so it depends on the value taken for pi.
   */
  function DefaultConfig(pi: real): (c: Config)
    ensures ValidConfig(c)
    ensures c.g == 9.81 && c.length == 50.0 && c.breakStrength == 20000.0
    ensures c.theta0 * 36.0 == pi && c.dt == 0.01 && c.maxTime == 8.0
  {
    Config(9.81, 50.0, 20000.0, 5.0 * pi / 180.0, 0.01, 8.0)
  }

  /** Scale factor of the bending-force proxy. */
  const ProxyScale: real := 1000.0

  /** Fraction of the rod that stays on the pivot after the break. */
  const BreakRatio: real := 0.33

  function Abs(x: real): real {
    if x < 0.0 then -x else x
  }

  /** Angular acceleration of a uniform rod of the given length toppling about its base. */
  function AngularAcceleration(g: real, length: real, sinTheta: real): real
    requires length > 0.0
  {
    (3.0 * g / (2.0 * length)) * sinTheta
  }

  /**
   * One semi-implicit Euler step of a rod toppling about its base: the angular
   * velocity is updated first, and the angle moves with the new angular velocity.
   * Returns the new (angle, angular velocity).
   */
  function PendulumStep(g: real, length: real, dt: real, theta: real, omega: real, sinTheta: real): (real, real)
    requires length > 0.0
  {
    var omega' := omega + AngularAcceleration(g, length, sinTheta) * dt;
    (theta + omega' * dt, omega')
  }

  /**
   * The step is semi-implicit: the angle moves by the old angular velocity plus
   * alpha*dt*dt (explicit Euler would move it by the old angular velocity
   * alone), and a rod at rest where the sine vanishes stays at rest.
   */
  lemma PendulumStepSemiImplicit(g: real, length: real, dt: real, theta: real, omega: real, sinTheta: real)
    requires length > 0.0
    ensures var (theta', omega') := PendulumStep(g, length, dt, theta, omega, sinTheta);
            var alpha := AngularAcceleration(g, length, sinTheta);
            omega' == omega + alpha * dt
            && theta' == theta + omega * dt + alpha * dt * dt
    ensures sinTheta == 0.0 && omega == 0.0 ==> PendulumStep(g, length, dt, theta, omega, sinTheta) == (theta, 0.0)
  {
    var alpha := AngularAcceleration(g, length, sinTheta);
    assert (omega + alpha * dt) * dt == omega * dt + alpha * dt * dt;
  }

  /**
   * The shorter stub left after the break obeys the same law with its own
   * length, so its angular acceleration is that of the whole rod divided by
   * the break ratio.
   */
  lemma StubAcceleration(g: real, length: real, sinTheta: real)
    requires length > 0.0
    ensures AngularAcceleration(g, length * BreakRatio, sinTheta) * BreakRatio
            == AngularAcceleration(g, length, sinTheta)
  {
    var b := length * BreakRatio;
    var k := 3.0 * g / (2.0 * b);
    assert k * (2.0 * b) == 3.0 * g;
    var k' := 3.0 * g / (2.0 * length);
    assert k' * (2.0 * length) == 3.0 * g;
    assert k * BreakRatio * (2.0 * length) == 3.0 * g;
    assert k * BreakRatio == k';
  }

  /** The bending-force proxy that decides the break; it never is negative. */
  function StressProxy(length: real, sinTheta: real): (f: real)
    ensures f >= 0.0
    ensures length != 0.0 ==> (f == 0.0 <==> sinTheta == 0.0)
  {
    Abs(sinTheta * (length - length / 3.0)) * ProxyScale
  }

  /** The break fires while unbroken once the proxy exceeds the break strength. */
  predicate BreakFires(broke: bool, proxy: real, breakStrength: real) {
    !broke && proxy > breakStrength
  }

  /** Length of the stub that stays on the pivot (also the break point's distance from the base). */
  function BottomLength(length: real): real {
    length * BreakRatio
  }

  /** Length of the piece that flies off. */
  function TopLength(length: real): real {
    length - BottomLength(length)
  }

  /** The split conserves the total length, and the stub is the shorter piece. */
  lemma SplitLengths(length: real)
    requires length > 0.0
    ensures BottomLength(length) + TopLength(length) == length
    ensures 0.0 < BottomLength(length) < TopLength(length)
  {
  }

  /** Distance from the pivot to the top piece's centre at the moment of the break. */
  function CenterDistance(length: real): real {
    BottomLength(length) + TopLength(length) / 2.0
  }

  /** Kinematic state of the flying top piece (centre, velocity, orientation, spin, length). */
  datatype TopPiece = TopPiece(x: real, y: real, vx: real, vy: real,
                               angle: real, omega: real, len: real)

  /**
   * The top piece as it leaves the rod: its centre is on the rod, its velocity
   * is that of the centre rotating with the rod, and it keeps the rod's angle
   * and angular velocity.
   */
  function BreakTopPiece(tr: Trig, length: real, theta: real, omega: real): (p: TopPiece)
    ensures p.angle == theta && p.omega == omega
    ensures BottomLength(length) + p.len == length
  {
    var d := CenterDistance(length);
    TopPiece(d * tr.sin(theta), d * tr.cos(theta),
             omega * d * tr.cos(theta), -omega * d * tr.sin(theta),
             theta, omega, TopLength(length))
  }

  /** The segment occupied by the top piece. */
  function TopSegment(tr: Trig, p: TopPiece): Segment {
    TopPieceEndpoints(tr, p.x, p.y, p.angle, p.len)
  }

  /**
   * At the moment of the break the top piece occupies exactly the upper part of
   * the rod: its lower end is the stub's tip and its upper end the old rod's tip.
   */
  lemma BreakContinuity(tr: Trig, length: real, theta: real, omega: real)
    ensures var p := BreakTopPiece(tr, length, theta, omega);
            var stub := RodEndpoints(tr, BottomLength(length), theta, 0.0, 0.0);
            var rod := RodEndpoints(tr, length, theta, 0.0, 0.0);
            TopSegment(tr, p) == Segment(stub.x2, stub.y2, rod.x2, rod.y2)
  {
    var s, c := tr.sin(theta), tr.cos(theta);
    var b, h := BottomLength(length), TopLength(length) / 2.0;
    assert CenterDistance(length) - h == b;
    assert CenterDistance(length) + h == length;
    assert (b + h) * s - h * s == b * s;
    assert (b + h) * c - h * c == b * c;
    assert (b + h) * s + h * s == (b + h + h) * s;
    assert (b + h) * c + h * c == (b + h + h) * c;
  }

  /**
   * The initial velocity of the top piece is tangential: perpendicular to the
   * radius from the pivot, with the speed of a point rotating at omega.
   */
  lemma BreakVelocityTangential(tr: Trig, length: real, theta: real, omega: real)
    ensures var p := BreakTopPiece(tr, length, theta, omega);
            p.vx * p.x + p.vy * p.y == 0.0
    ensures ValidTrig(tr) ==>
            var p := BreakTopPiece(tr, length, theta, omega);
            var d := CenterDistance(length);
            p.vx * p.vx + p.vy * p.vy == (omega * d) * (omega * d)
            && p.vx * p.y - p.vy * p.x == omega * d * d
  {
    var s, c := tr.sin(theta), tr.cos(theta);
    var d := CenterDistance(length);
    var w := omega * d;
    assert (w * c) * (d * s) + (-w * s) * (d * c) == 0.0;
    if ValidTrig(tr) {
      assert s * s + c * c == 1.0;
      calc {
        (w * c) * (w * c) + (-w * s) * (-w * s);
        w * w * (s * s + c * c);
        w * w;
      }
      calc {
        (w * c) * (d * c) - (-w * s) * (d * s);
        w * d * (s * s + c * c);
        w * d;
      }
    }
  }

  /**
   * One time step of the top piece: gravity changes the vertical velocity,
   * the centre moves with the updated velocity and the piece keeps spinning.
   */
  function FlightStep(p: TopPiece, g: real, dt: real): TopPiece {
    var vy := p.vy - g * dt;
    TopPiece(p.x + p.vx * dt, p.y + vy * dt, p.vx, vy, p.angle + p.omega * dt, p.omega, p.len)
  }

  /** The top piece after k flight steps. */
  function Flight(p: TopPiece, g: real, dt: real, k: nat): TopPiece
    decreases k
  {
    if k == 0 then p else FlightStep(Flight(p, g, dt, k - 1), g, dt)
  }

  /** One step of the discrete parabola: the height identity behind FlightClosedForm. */
  lemma HeightStep(y0: real, vy0: real, g: real, dt: real, m: real)
    ensures var n := m + 1.0;
            (y0 + m * vy0 * dt - (m * (m + 1.0) / 2.0) * g * dt * dt) + (vy0 - n * g * dt) * dt
            == y0 + n * vy0 * dt - (n * (n + 1.0) / 2.0) * g * dt * dt
  {
    var n := m + 1.0;
    var c := g * dt * dt;
    assert (vy0 - n * g * dt) * dt == vy0 * dt - n * c;
    assert m * vy0 * dt + vy0 * dt == n * vy0 * dt;
    assert (m * (m + 1.0) / 2.0) * c + n * c == (n * (n + 1.0) / 2.0) * c;
  }

  /** Horizontal velocity, spin and length never change in flight. */
  lemma {:induction false} FlightKeepsConstants(p: TopPiece, g: real, dt: real, k: nat)
    ensures var q := Flight(p, g, dt, k);
            q.vx == p.vx && q.omega == p.omega && q.len == p.len
  {
    if k > 0 {
      FlightKeepsConstants(p, g, dt, k - 1);
    }
  }

  /** After k steps the vertical velocity has lost exactly k*g*dt. */
  lemma {:induction false} FlightVerticalVelocity(p: TopPiece, g: real, dt: real, k: nat)
    ensures Flight(p, g, dt, k).vy == p.vy - (k as real) * g * dt
  {
    if k > 0 {
      FlightVerticalVelocity(p, g, dt, k - 1);
      var m := (k - 1) as real;
      assert m * g * dt + g * dt == (m + 1.0) * g * dt;
    }
  }

  /** After k steps the angle has advanced by exactly k*omega*dt. */
  lemma {:induction false} FlightAngle(p: TopPiece, g: real, dt: real, k: nat)
    ensures Flight(p, g, dt, k).angle == p.angle + (k as real) * p.omega * dt
  {
    if k > 0 {
      FlightAngle(p, g, dt, k - 1);
      FlightKeepsConstants(p, g, dt, k - 1);
      var m := (k - 1) as real;
      assert m * p.omega * dt + p.omega * dt == (m + 1.0) * p.omega * dt;
    }
  }

  /** After k steps the centre has moved horizontally by exactly k*vx*dt. */
  lemma {:induction false} FlightHorizontal(p: TopPiece, g: real, dt: real, k: nat)
    ensures Flight(p, g, dt, k).x == p.x + (k as real) * p.vx * dt
  {
    if k > 0 {
      FlightHorizontal(p, g, dt, k - 1);
      FlightKeepsConstants(p, g, dt, k - 1);
      var m := (k - 1) as real;
      assert m * p.vx * dt + p.vx * dt == (m + 1.0) * p.vx * dt;
    }
  }

  /** After k steps the centre's height follows the discrete parabola of the semi-implicit update. */
  lemma {:induction false} FlightHeight(p: TopPiece, g: real, dt: real, k: nat)
    ensures var n := k as real;
            Flight(p, g, dt, k).y == p.y + n * p.vy * dt - (n * (n + 1.0) / 2.0) * g * dt * dt
  {
    if k > 0 {
      FlightHeight(p, g, dt, k - 1);
      FlightVerticalVelocity(p, g, dt, k);
      HeightStep(p.y, p.vy, g, dt, (k - 1) as real);
    }
  }

  /** The whole state of the top piece after k flight steps, in closed form. */
  lemma FlightClosedForm(p: TopPiece, g: real, dt: real, k: nat)
    ensures var q := Flight(p, g, dt, k);
            var n := k as real;
            q.vx == p.vx && q.omega == p.omega && q.len == p.len
            && q.vy == p.vy - n * g * dt
            && q.angle == p.angle + n * p.omega * dt
            && q.x == p.x + n * p.vx * dt
            && q.y == p.y + n * p.vy * dt - (n * (n + 1.0) / 2.0) * g * dt * dt
  {
    FlightKeepsConstants(p, g, dt, k);
    FlightVerticalVelocity(p, g, dt, k);
    FlightAngle(p, g, dt, k);
    FlightHorizontal(p, g, dt, k);
    FlightHeight(p, g, dt, k);
  }
}
