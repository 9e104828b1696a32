/** One contact of the impulse solver: the scalar computation and the two-lane one. */
module ContactSolver {
  import opened Reals
  import opened Vectors

  datatype Motion = Motion(v: Vect, w: real, vBias: Vect, wBias: real)

  /** Inverse mass and inverse moment of inertia. */
  datatype Mass = Mass(mInv: real, iInv: real)

  datatype Contact = Contact(r1: Vect, r2: Vect, nMass: real, tMass: real, bias: real, bounce: real, jnAcc: real,
                             jtAcc: real, jBias: real)

  /** What an arbiter holds fixed during a pass. */
  datatype Env = Env(n: Vect, surfaceVr: Vect, friction: real, a: Mass, b: Mass)

  datatype Touch = Touch(a: Motion, b: Motion, con: Contact)

  function ApplyImpulse(m: Motion, mass: Mass, j: Vect, r: Vect): Motion {
    m.(v := Add(m.v, Mult(j, mass.mInv)), w := m.w + mass.iInv * Cross(r, j))
  }

  function ApplyBiasImpulse(m: Motion, mass: Mass, j: Vect, r: Vect): Motion {
    m.(vBias := Add(m.vBias, Mult(j, mass.mInv)), wBias := m.wBias + mass.iInv * Cross(r, j))
  }

  function RelativeVelocity(a: Motion, b: Motion, r1: Vect, r2: Vect): Vect {
    Sub(Add(b.v, Mult(Perp(r2), b.w)), Add(a.v, Mult(Perp(r1), a.w)))
  }

  function RelativeBias(a: Motion, b: Motion, r1: Vect, r2: Vect): Vect {
    Sub(Add(b.vBias, Mult(Perp(r2), b.wBias)), Add(a.vBias, Mult(Perp(r1), a.wBias)))
  }

  /** The friction impulse, clamped to the cone given by the normal impulse. */
  function TangentAt(env: Env, vr: Vect, con: Contact, jnAcc: real): real {
    Cone(con.jtAcc, Dot(vr, Perp(env.n)), con.tMass, env.friction, jnAcc)
  }

  function Cone(jtOld: real, vrt: real, tMass: real, friction: real, jnAcc: real): real {
    var jtMax := friction * jnAcc;
    Clamp(jtOld + -vrt * tMass, -jtMax, jtMax)
  }

  /** The accumulated impulses after one contact has been processed, given the relative velocities at the contact. */
  function AccumulateAt(env: Env, vbr: Vect, relative: Vect, con: Contact): Contact {
    var vr := Add(relative, env.surfaceVr);
    var jBias := Max(con.jBias + (con.bias - Dot(vbr, env.n)) * con.nMass, 0.0);
    var jnAcc := Max(con.jnAcc + -(con.bounce + Dot(vr, env.n)) * con.nMass, 0.0);
    con.(jBias := jBias, jnAcc := jnAcc, jtAcc := TangentAt(env, vr, con, jnAcc))
  }

  function Accumulate(env: Env, a: Motion, b: Motion, con: Contact): Contact {
    AccumulateAt(env, RelativeBias(a, b, con.r1, con.r2), RelativeVelocity(a, b, con.r1, con.r2), con)
  }

  /** The bodies receive what has been accumulated anew, in opposite directions. */
  function Exchange(env: Env, t: Touch, con': Contact): Touch {
    var con := t.con;
    var jBias := Mult(env.n, con'.jBias - con.jBias);
    var j := Rotate(env.n, Vect(con'.jnAcc - con.jnAcc, con'.jtAcc - con.jtAcc));
    Touch(ApplyImpulse(ApplyBiasImpulse(t.a, env.a, Neg(jBias), con.r1), env.a, Neg(j), con.r1),
          ApplyImpulse(ApplyBiasImpulse(t.b, env.b, jBias, con.r2), env.b, j, con.r2),
          con')
  }

  function Solve(env: Env, t: Touch): Touch {
    Exchange(env, t, Accumulate(env, t.a, t.b, t.con))
  }

  // ---- what a processed contact satisfies ----

  predicate Bounded(con: Contact, friction: real) {
    con.jnAcc >= 0.0 && con.jBias >= 0.0 && -(friction * con.jnAcc) <= con.jtAcc <= friction * con.jnAcc
  }

  lemma ClampBounds(f: real, hi: real)
    requires hi >= 0.0
    ensures -hi <= Clamp(f, -hi, hi) <= hi
  {
  }

  lemma NonNegative(x: real, y: real)
    requires x >= 0.0 && y >= 0.0
    ensures x * y >= 0.0
  {
  }

  lemma TangentBounds(env: Env, vr: Vect, con: Contact, jnAcc: real)
    requires env.friction >= 0.0 && jnAcc >= 0.0
    ensures -(env.friction * jnAcc) <= TangentAt(env, vr, con, jnAcc) <= env.friction * jnAcc
  {
    NonNegative(env.friction, jnAcc);
    ClampBounds(con.jtAcc + -Dot(vr, Perp(env.n)) * con.tMass, env.friction * jnAcc);
  }

  lemma AccumulateBounds(env: Env, vbr: Vect, relative: Vect, con: Contact)
    requires env.friction >= 0.0
    ensures Bounded(AccumulateAt(env, vbr, relative, con), env.friction)
  {
    TangentBounds(env, Add(relative, env.surfaceVr), con, AccumulateAt(env, vbr, relative, con).jnAcc);
  }

  /** No pulling, and friction stays inside the cone. */
  lemma SolveBounds(env: Env, t: Touch)
    requires env.friction >= 0.0
    ensures Bounded(Solve(env, t).con, env.friction)
  {
    AccumulateBounds(env, RelativeBias(t.a, t.b, t.con.r1, t.con.r2), RelativeVelocity(t.a, t.b, t.con.r1, t.con.r2),
      t.con);
  }

  // ---- momentum ----

  function Momentum(m: Motion, mass: real): Vect {
    Mult(m.v, mass)
  }

  lemma Gain(v: real, j: real, mInv: real, mass: real)
    requires mass * mInv == 1.0
    ensures (v + j * mInv) * mass == v * mass + j
  {
    assert (v + j * mInv) * mass == v * mass + j * (mass * mInv);
  }

  /** An impulse changes the momentum of a finite body by just as much. */
  lemma ImpulseMomentum(m: Motion, mass: Mass, j: Vect, r: Vect, finite: real)
    requires finite * mass.mInv == 1.0
    ensures Momentum(ApplyImpulse(m, mass, j, r), finite) == Add(Momentum(m, finite), j)
  {
    Gain(m.v.x, j.x, mass.mInv, finite);
    Gain(m.v.y, j.y, mass.mInv, finite);
  }

  lemma ExchangeConserves(env: Env, t: Touch, con': Contact, massA: real, massB: real)
    requires massA * env.a.mInv == 1.0 && massB * env.b.mInv == 1.0
    ensures var t' := Exchange(env, t, con');
            Add(Momentum(t'.a, massA), Momentum(t'.b, massB)) == Add(Momentum(t.a, massA), Momentum(t.b, massB))
  {
    var con := t.con;
    var jBias := Mult(env.n, con'.jBias - con.jBias);
    var j := Rotate(env.n, Vect(con'.jnAcc - con.jnAcc, con'.jtAcc - con.jtAcc));
    var a, b := ApplyBiasImpulse(t.a, env.a, Neg(jBias), con.r1), ApplyBiasImpulse(t.b, env.b, jBias, con.r2);
    assert Momentum(a, massA) == Momentum(t.a, massA) && Momentum(b, massB) == Momentum(t.b, massB);
    ImpulseMomentum(a, env.a, Neg(j), con.r1, massA);
    ImpulseMomentum(b, env.b, j, con.r2, massB);
  }

  /** What one body of finite mass gains, the other loses. */
  lemma SolveConserves(env: Env, t: Touch, massA: real, massB: real)
    requires massA * env.a.mInv == 1.0 && massB * env.b.mInv == 1.0
    ensures var t' := Solve(env, t);
            Add(Momentum(t'.a, massA), Momentum(t'.b, massB)) == Add(Momentum(t.a, massA), Momentum(t.b, massB))
  {
    ExchangeConserves(env, t, Accumulate(env, t.a, t.b, t.con), massA, massB);
  }

  // ---- two lanes at a time ----

  function VMul(a: Vect, b: Vect): Vect { Vect(a.x * b.x, a.y * b.y) }
  function VRev(a: Vect): Vect { Vect(a.y, a.x) }
  function VPAdd(a: Vect, b: Vect): Vect { Vect(a.x + a.y, b.x + b.y) }
  function VMax(a: Vect, b: Vect): Vect { Vect(Max(a.x, b.x), Max(a.y, b.y)) }
  function VMin(a: Vect, b: Vect): Vect { Vect(Min(a.x, b.x), Min(a.y, b.y)) }

  const LANE_PERP := Vect(-1.0, 1.0)
  const LANE_NPERP := Vect(1.0, -1.0)

  /** jBias and jnAcc of the two-lane version. */
  function LaneNormal(env: Env, vbr: Vect, vr: Vect, con: Contact): Vect {
    var vbnVrn := VPAdd(VMul(vbr, env.n), VMul(vr, env.n));
    var jOld := Vect(con.jBias, con.jnAcc);
    VMax(Add(jOld, Mult(Sub(Vect(con.bias, -con.bounce), vbnVrn), con.nMass)), ZERO)
  }

  /** Its jtAcc, in the first lane. */
  function LaneTangent(env: Env, vr: Vect, con: Contact, jbnJn: Vect): Vect {
    var t := VMul(VRev(env.n), LANE_PERP);
    var vrtTmp := VMul(Add(vr, env.surfaceVr), t);
    var vrt := VPAdd(vrtTmp, vrtTmp);
    var jtMax := VRev(Mult(jbnJn, env.friction));
    VMax(Neg(jtMax), VMin(Add(Vect(con.jtAcc, 0.0), Mult(vrt, -con.tMass)), jtMax))
  }

  function LaneBias(a: Motion, b: Motion, con: Contact): Vect {
    var r1p, r2p := VMul(VRev(con.r1), LANE_PERP), VMul(VRev(con.r2), LANE_PERP);
    Sub(Add(b.vBias, Mult(r2p, b.wBias)), Add(a.vBias, Mult(r1p, a.wBias)))
  }

  function LaneVelocity(a: Motion, b: Motion, con: Contact): Vect {
    var r1p, r2p := VMul(VRev(con.r1), LANE_PERP), VMul(VRev(con.r2), LANE_PERP);
    Sub(Add(b.v, Mult(r2p, b.w)), Add(a.v, Mult(r1p, a.w)))
  }

  /** Both angular velocities after the impulse j. */
  function LaneSpin(env: Env, w: Vect, con: Contact, j: Vect): Vect {
    var cross := VMul(VRev(j), LANE_NPERP);
    Add(w, VMul(Vect(-env.a.iInv, env.b.iInv), VPAdd(VMul(con.r1, cross), VMul(con.r2, cross))))
  }

  /** Both bodies of the two-lane version after the impulses jBias and j. */
  function LaneMove(env: Env, a: Motion, b: Motion, con: Contact, jBias: Vect, j: Vect): (Motion, Motion) {
    var wBias := LaneSpin(env, Vect(a.wBias, b.wBias), con, jBias);
    var w := LaneSpin(env, Vect(a.w, b.w), con, j);
    (Motion(Sub(a.v, Mult(j, env.a.mInv)), w.x, Sub(a.vBias, Mult(jBias, env.a.mInv)), wBias.x),
     Motion(Add(b.v, Mult(j, env.b.mInv)), w.y, Add(b.vBias, Mult(jBias, env.b.mInv)), wBias.y))
  }

  /** The velocities of the two-lane version. */
  function LaneExchange(env: Env, t: Touch, jbnJn: Vect, jt: Vect): Touch {
    var con := t.con;
    var jApply, jtApply := Sub(jbnJn, Vect(con.jBias, con.jnAcc)), Sub(jt, Vect(con.jtAcc, 0.0));
    var tangent := VMul(VRev(env.n), LANE_PERP);
    var jBias := Mult(env.n, jApply.x);
    var j := Add(Mult(env.n, jApply.y), Mult(tangent, jtApply.x));
    var moved := LaneMove(env, t.a, t.b, con, jBias, j);
    Touch(moved.0, moved.1, con.(jBias := jbnJn.x, jnAcc := jbnJn.y, jtAcc := jt.x))
  }

  function LaneSolve(env: Env, t: Touch): Touch {
    var vr := LaneVelocity(t.a, t.b, t.con);
    var jbnJn := LaneNormal(env, LaneBias(t.a, t.b, t.con), vr, t.con);
    LaneExchange(env, t, jbnJn, LaneTangent(env, vr, t.con, jbnJn))
  }

  lemma LanePerpendicular(r: Vect)
    ensures VMul(VRev(r), LANE_PERP) == Perp(r)
  {
  }

  lemma LaneDots(x: Vect, y: Vect, n: Vect)
    ensures VPAdd(VMul(x, n), VMul(y, n)) == Vect(Dot(x, n), Dot(y, n))
  {
  }

  lemma LaneCrosses(r1: Vect, r2: Vect, j: Vect)
    ensures VPAdd(VMul(r1, VMul(VRev(j), LANE_NPERP)), VMul(r2, VMul(VRev(j), LANE_NPERP)))
      == Vect(Cross(r1, j), Cross(r2, j))
  {
  }

  lemma LaneRotates(n: Vect, jn: real, jt: real)
    ensures Add(Mult(n, jn), Mult(Perp(n), jt)) == Rotate(n, Vect(jn, jt))
  {
  }

  lemma LaneClamps(f: real, hi: real)
    requires hi >= 0.0
    ensures Max(-hi, Min(f, hi)) == Clamp(f, -hi, hi)
  {
  }

  lemma DotAdds(x: Vect, y: Vect, n: Vect)
    ensures Dot(Add(x, y), n) == Dot(x, n) + Dot(y, n)
  {
  }

  /** The two-lane version leaves the surface velocity out of the normal impulse; perpendicular to n it has no part
      in it. */
  lemma LaneNormalAgrees(env: Env, vbr: Vect, vr: Vect, con: Contact)
    requires Dot(env.surfaceVr, env.n) == 0.0
    ensures var con' := AccumulateAt(env, vbr, vr, con);
            LaneNormal(env, vbr, vr, con) == Vect(con'.jBias, con'.jnAcc)
  {
    LaneDots(vbr, vr, env.n);
    DotAdds(vr, env.surfaceVr, env.n);
  }

  function LaneCone(jtOld: real, vrt: real, tMass: real, friction: real, jnAcc: real): real {
    Max(-(jnAcc * friction), Min(jtOld + vrt * -tMass, jnAcc * friction))
  }

  lemma LaneTangentIs(env: Env, vr: Vect, con: Contact, jbnJn: Vect)
    ensures LaneTangent(env, vr, con, jbnJn).x
      == LaneCone(con.jtAcc, Dot(Add(vr, env.surfaceVr), Perp(env.n)), con.tMass, env.friction, jbnJn.y)
  {
    LanePerpendicular(env.n);
    var full := Add(vr, env.surfaceVr);
    LaneDots(full, full, Perp(env.n));
  }

  lemma ConesAgree(jtOld: real, vrt: real, tMass: real, friction: real, jnAcc: real)
    requires friction >= 0.0 && jnAcc >= 0.0
    ensures LaneCone(jtOld, vrt, tMass, friction, jnAcc) == Cone(jtOld, vrt, tMass, friction, jnAcc)
  {
    NonNegative(friction, jnAcc);
    assert jnAcc * friction == friction * jnAcc && vrt * -tMass == -vrt * tMass;
    LaneClamps(jtOld + -vrt * tMass, friction * jnAcc);
  }

  lemma LaneTangentFrom(env: Env, vr: Vect, con: Contact, jBias: real, jnAcc: real)
    requires env.friction >= 0.0 && jnAcc >= 0.0
    ensures LaneTangent(env, vr, con, Vect(jBias, jnAcc)).x == TangentAt(env, Add(vr, env.surfaceVr), con, jnAcc)
  {
    LaneTangentIs(env, vr, con, Vect(jBias, jnAcc));
    ConesAgree(con.jtAcc, Dot(Add(vr, env.surfaceVr), Perp(env.n)), con.tMass, env.friction, jnAcc);
  }

  lemma LaneTangentAgrees(env: Env, vbr: Vect, vr: Vect, con: Contact)
    requires env.friction >= 0.0
    ensures var con' := AccumulateAt(env, vbr, vr, con);
            LaneTangent(env, vr, con, Vect(con'.jBias, con'.jnAcc)).x == con'.jtAcc
  {
    var con' := AccumulateAt(env, vbr, vr, con);
    LaneTangentFrom(env, vr, con, con'.jBias, con'.jnAcc);
  }

  lemma LaneVelocityAgrees(a: Motion, b: Motion, con: Contact)
    ensures LaneVelocity(a, b, con) == RelativeVelocity(a, b, con.r1, con.r2)
    ensures LaneBias(a, b, con) == RelativeBias(a, b, con.r1, con.r2)
  {
    LanePerpendicular(con.r1);
    LanePerpendicular(con.r2);
  }

  lemma LaneSpinIs(env: Env, w: Vect, con: Contact, j: Vect)
    ensures LaneSpin(env, w, con, j)
      == Vect(w.x + env.a.iInv * Cross(con.r1, Neg(j)), w.y + env.b.iInv * Cross(con.r2, j))
  {
    LaneCrosses(con.r1, con.r2, j);
    var c1, c2 := Cross(con.r1, j), Cross(con.r2, j);
    assert LaneSpin(env, w, con, j) == Add(w, VMul(Vect(-env.a.iInv, env.b.iInv), Vect(c1, c2)));
    CrossNeg(con.r1, j);
    assert env.a.iInv * -c1 == -env.a.iInv * c1;
  }

  lemma CrossNeg(r: Vect, j: Vect)
    ensures Cross(r, Neg(j)) == -Cross(r, j)
  {
  }

  lemma SubIsAdd(v: Vect, j: Vect, mInv: real)
    ensures Add(v, Mult(Neg(j), mInv)) == Sub(v, Mult(j, mInv))
  {
  }

  lemma BothImpulses(m: Motion, mass: Mass, jBias: Vect, j: Vect, r: Vect)
    ensures ApplyImpulse(ApplyBiasImpulse(m, mass, jBias, r), mass, j, r) ==
              Motion(Add(m.v, Mult(j, mass.mInv)), m.w + mass.iInv * Cross(r, j),
                Add(m.vBias, Mult(jBias, mass.mInv)), m.wBias + mass.iInv * Cross(r, jBias))
  {
  }

  lemma LaneMoveFirst(env: Env, a: Motion, b: Motion, con: Contact, jBias: Vect, j: Vect)
    ensures LaneMove(env, a, b, con, jBias, j).0
      == ApplyImpulse(ApplyBiasImpulse(a, env.a, Neg(jBias), con.r1), env.a, Neg(j), con.r1)
  {
    LaneSpinIs(env, Vect(a.wBias, b.wBias), con, jBias);
    LaneSpinIs(env, Vect(a.w, b.w), con, j);
    SubIsAdd(a.v, j, env.a.mInv);
    SubIsAdd(a.vBias, jBias, env.a.mInv);
    BothImpulses(a, env.a, Neg(jBias), Neg(j), con.r1);
  }

  lemma LaneMoveSecond(env: Env, a: Motion, b: Motion, con: Contact, jBias: Vect, j: Vect)
    ensures LaneMove(env, a, b, con, jBias, j).1
      == ApplyImpulse(ApplyBiasImpulse(b, env.b, jBias, con.r2), env.b, j, con.r2)
  {
    LaneSpinIs(env, Vect(a.wBias, b.wBias), con, jBias);
    LaneSpinIs(env, Vect(a.w, b.w), con, j);
    BothImpulses(b, env.b, jBias, j, con.r2);
    assert LaneMove(env, a, b, con, jBias, j).1.w == b.w + env.b.iInv * Cross(con.r2, j);
    assert LaneMove(env, a, b, con, jBias, j).1.wBias == b.wBias + env.b.iInv * Cross(con.r2, jBias);
  }

  lemma LaneExchangeAgrees(env: Env, t: Touch, con': Contact, jt: Vect)
    requires con' == t.con.(jBias := con'.jBias, jnAcc := con'.jnAcc, jtAcc := con'.jtAcc) && jt.x == con'.jtAcc
    ensures LaneExchange(env, t, Vect(con'.jBias, con'.jnAcc), jt) == Exchange(env, t, con')
  {
    var con := t.con;
    LanePerpendicular(env.n);
    LaneRotates(env.n, con'.jnAcc - con.jnAcc, con'.jtAcc - con.jtAcc);
    var jBias, j := Mult(env.n, con'.jBias - con.jBias),
      Rotate(env.n, Vect(con'.jnAcc - con.jnAcc, con'.jtAcc - con.jtAcc));
    LaneMoveFirst(env, t.a, t.b, con, jBias, j);
    LaneMoveSecond(env, t.a, t.b, con, jBias, j);
  }

  /** Both versions compute the same state. */
  lemma LaneSolveAgrees(env: Env, t: Touch)
    requires Dot(env.surfaceVr, env.n) == 0.0 && env.friction >= 0.0
    ensures LaneSolve(env, t) == Solve(env, t)
  {
    LaneVelocityAgrees(t.a, t.b, t.con);
    var vbr, vr := LaneBias(t.a, t.b, t.con), LaneVelocity(t.a, t.b, t.con);
    LaneNormalAgrees(env, vbr, vr, t.con);
    LaneTangentAgrees(env, vbr, vr, t.con);
    LaneExchangeAgrees(env, t, Accumulate(env, t.a, t.b, t.con),
      LaneTangent(env, vr, t.con, LaneNormal(env, vbr, vr, t.con)));
  }

  /** The surface velocity as cpArbiterUpdate stores it. */
  function Projected(surfaceVr: Vect, n: Vect): Vect {
    Sub(surfaceVr, Mult(n, Dot(surfaceVr, n)))
  }

  lemma ProjectedIsPerpendicular(surfaceVr: Vect, n: Vect)
    ensures Dot(Projected(surfaceVr, n), n) == Dot(surfaceVr, n) * (1.0 - Dot(n, n))
    ensures Dot(n, n) == 1.0 ==> Dot(Projected(surfaceVr, n), n) == 0.0
  {
  }

  const REST := Motion(ZERO, 0.0, ZERO, 0.0)

  /** A contact between bodies at rest on which the two versions part when the surface moves along n. */
  function RestingContact(jnAcc: real): Touch {
    Touch(REST, REST, Contact(ZERO, ZERO, 1.0, 1.0, 0.0, 0.0, jnAcc, 0.0, 0.0))
  }

  lemma AtRest(con: Contact)
    requires con.r1 == ZERO && con.r2 == ZERO
    ensures LaneVelocity(REST, REST, con) == ZERO
  {
  }

  lemma ZeroDot(n: Vect, s: Vect)
    ensures Dot(ZERO, n) == 0.0 && Add(ZERO, s) == s
  {
  }

  lemma RestingNormal(env: Env, vbr: Vect, con: Contact)
    requires con.nMass == 1.0 && con.bounce == 0.0
    ensures LaneNormal(env, vbr, ZERO, con).y == Max(con.jnAcc, 0.0)
    ensures AccumulateAt(env, vbr, ZERO, con).jnAcc == Max(con.jnAcc - Dot(env.surfaceVr, env.n), 0.0)
  {
    LaneDots(vbr, ZERO, env.n);
    ZeroDot(env.n, env.surfaceVr);
  }

  lemma NormalOf(env: Env, t: Touch)
    ensures Solve(env, t).con.jnAcc
      == AccumulateAt(env, RelativeBias(t.a, t.b, t.con.r1, t.con.r2), RelativeVelocity(t.a, t.b, t.con.r1, t.con.r2),
      t.con).jnAcc
    ensures LaneSolve(env, t).con.jnAcc
      == LaneNormal(env, LaneBias(t.a, t.b, t.con), LaneVelocity(t.a, t.b, t.con), t.con).y
  {
  }

  lemma Parted(x: real, d: real)
    requires d != 0.0 && x == (if d < 0.0 then -d else d)
    ensures Max(x, 0.0) != Max(x - d, 0.0)
  {
  }

  lemma NormalsAt(env: Env, t: Touch)
    requires LaneVelocity(t.a, t.b, t.con) == ZERO && t.con.nMass == 1.0 && t.con.bounce == 0.0
    ensures LaneSolve(env, t).con.jnAcc == Max(t.con.jnAcc, 0.0)
    ensures Solve(env, t).con.jnAcc == Max(t.con.jnAcc - Dot(env.surfaceVr, env.n), 0.0)
  {
    NormalOf(env, t);
    LaneVelocityAgrees(t.a, t.b, t.con);
    RestingNormal(env, LaneBias(t.a, t.b, t.con), t.con);
  }

  lemma RestingDiffers(env: Env, t: Touch, d: real)
    requires LaneVelocity(t.a, t.b, t.con) == ZERO && t.con.nMass == 1.0 && t.con.bounce == 0.0
    requires d == Dot(env.surfaceVr, env.n) && d != 0.0 && t.con.jnAcc == (if d < 0.0 then -d else d)
    ensures LaneSolve(env, t) != Solve(env, t)
  {
    NormalsAt(env, t);
    Parted(t.con.jnAcc, d);
  }

  lemma RestingContactDiffers(env: Env, d: real) returns (t: Touch)
    requires d == Dot(env.surfaceVr, env.n) && d != 0.0
    ensures LaneSolve(env, t) != Solve(env, t)
  {
    t := RestingContact(if d < 0.0 then -d else d);
    AtRest(t.con);
    RestingDiffers(env, t, d);
  }

  /** The two versions agree on every contact exactly when the surface velocity is perpendicular to the normal. */
  lemma LaneAgreesExactly(env: Env)
    requires env.friction >= 0.0
    ensures (forall t :: LaneSolve(env, t) == Solve(env, t)) <==> Dot(env.surfaceVr, env.n) == 0.0
  {
    if Dot(env.surfaceVr, env.n) == 0.0 {
      forall t ensures LaneSolve(env, t) == Solve(env, t) {
        LaneSolveAgrees(env, t);
      }
    } else {
      var t := RestingContactDiffers(env, Dot(env.surfaceVr, env.n));
    }
  }
}

/** The solver on shared bodies: arbiters in any order, any number of passes. */
module ImpulseSolver {
  import opened Arrays
  import opened Vectors
  import opened ContactSolver

  /** The contacts of one arbiter, processed one after the other. */
  function Pass(env: Env, a: Motion, b: Motion, cons: seq<Contact>): (Motion, Motion, seq<Contact>) {
    if cons == [] then (a, b, []) else
    var before := Pass(env, a, b, cons[..|cons| - 1]);
    var t := Solve(env, Touch(before.0, before.1, cons[|cons| - 1]));
    (t.a, t.b, before.2 + [t.con])
  }

  lemma {:induction false} PassBounds(env: Env, a: Motion, b: Motion, cons: seq<Contact>)
    requires env.friction >= 0.0
    ensures |Pass(env, a, b, cons).2| == |cons|
    ensures forall con :: con in Pass(env, a, b, cons).2 ==> Bounded(con, env.friction)
  {
    if cons != [] {
      PassBounds(env, a, b, cons[..|cons| - 1]);
      var before := Pass(env, a, b, cons[..|cons| - 1]);
      SolveBounds(env, Touch(before.0, before.1, cons[|cons| - 1]));
    }
  }

  lemma {:induction false} PassConserves(env: Env, a: Motion, b: Motion, cons: seq<Contact>, massA: real, massB: real)
    requires massA * env.a.mInv == 1.0 && massB * env.b.mInv == 1.0
    ensures var r := Pass(env, a, b, cons);
      Add(Momentum(r.0, massA), Momentum(r.1, massB)) == Add(Momentum(a, massA), Momentum(b, massB))
  {
    if cons != [] {
      PassConserves(env, a, b, cons[..|cons| - 1], massA, massB);
      var before := Pass(env, a, b, cons[..|cons| - 1]);
      SolveConserves(env, Touch(before.0, before.1, cons[|cons| - 1]), massA, massB);
    }
  }

  class Body {
    var v: Vect
    var w: real
    var vBias: Vect
    var wBias: real
    const m: real
    const mass: Mass

    constructor (m: real, mass: Mass)
      ensures this.m == m && this.mass == mass && Moves() == Motion(ZERO, 0.0, ZERO, 0.0)
    {
      this.m, this.mass := m, mass;
      v, w, vBias, wBias := ZERO, 0.0, ZERO, 0.0;
    }

    function Moves(): Motion
      reads this
    {
      Motion(v, w, vBias, wBias)
    }

    predicate Finite() {
      FiniteMass(m, mass)
    }

    method ApplyImpulse(j: Vect, r: Vect)
      modifies this
      ensures Moves() == ContactSolver.ApplyImpulse(old(Moves()), mass, j, r)
    {
      v := Add(v, Mult(j, mass.mInv));
      w := w + mass.iInv * Cross(r, j);
    }

    method ApplyBiasImpulse(j: Vect, r: Vect)
      modifies this
      ensures Moves() == ContactSolver.ApplyBiasImpulse(old(Moves()), mass, j, r)
    {
      vBias := Add(vBias, Mult(j, mass.mInv));
      wBias := wBias + mass.iInv * Cross(r, j);
    }
  }

  class Arbiter {
    const a: Body
    const b: Body
    const contacts: array<Contact>
    var n: Vect
    var surfaceVr: Vect
    var u: real

    constructor (a: Body, b: Body, contacts: array<Contact>)
      ensures this.a == a && this.b == b && this.contacts == contacts
    {
      this.a, this.b, this.contacts := a, b, contacts;
      n, surfaceVr, u := ZERO, ZERO, 0.0;
    }

    function Setting(): Env
      reads this
    {
      Env(n, surfaceVr, u, a.mass, b.mass)
    }

    /** What cpArbiterUpdate keeps of the normal, the frictions and the surface velocities of the two shapes. */
    method Update(normal: Vect, uA: real, uB: real, surfaceA: Vect, surfaceB: Vect)
      modifies this
      ensures n == normal && u == uA * uB && surfaceVr == Projected(Sub(surfaceB, surfaceA), normal)
      ensures Dot(normal, normal) == 1.0 ==> Dot(surfaceVr, n) == 0.0
    {
      n := normal;
      u := uA * uB;
      var vr := Sub(surfaceB, surfaceA);
      surfaceVr := Sub(vr, Mult(normal, Dot(vr, normal)));
      ProjectedIsPerpendicular(vr, normal);
    }

    /** One round of the loop in cpArbiterApplyImpulse. */
    method ApplyContact(i: nat)
      requires a != b && i < contacts.Length
      modifies a, b, contacts
      ensures var t := Solve(Setting(), Touch(old(a.Moves()), old(b.Moves()), old(contacts[i])));
              a.Moves() == t.a && b.Moves() == t.b && contacts[..] == old(contacts[..])[i := t.con]
    {
      var con := contacts[i];
      var con' := Accumulate(Setting(), a.Moves(), b.Moves(), con);
      contacts[i] := con';
      var jBias := Mult(n, con'.jBias - con.jBias);
      a.ApplyBiasImpulse(Neg(jBias), con.r1);
      b.ApplyBiasImpulse(jBias, con.r2);
      var j := Rotate(n, Vect(con'.jnAcc - con.jnAcc, con'.jtAcc - con.jtAcc));
      a.ApplyImpulse(Neg(j), con.r1);
      b.ApplyImpulse(j, con.r2);
    }

    /** One round of the loop in cpArbiterApplyImpulse_NEON. */
    method ApplyContactLanes(i: nat)
      requires a != b && i < contacts.Length && Dot(surfaceVr, n) == 0.0 && u >= 0.0
      modifies a, b, contacts
      ensures var t := Solve(Setting(), Touch(old(a.Moves()), old(b.Moves()), old(contacts[i])));
              a.Moves() == t.a && b.Moves() == t.b && contacts[..] == old(contacts[..])[i := t.con]
    {
      var con, env := contacts[i], Setting();
      LaneSolveAgrees(env, Touch(a.Moves(), b.Moves(), con));
      var vr := LaneVelocity(a.Moves(), b.Moves(), con);
      var jbnJn := LaneNormal(env, LaneBias(a.Moves(), b.Moves(), con), vr, con);
      var jt := LaneTangent(env, vr, con, jbnJn);
      var t := LaneExchange(env, Touch(a.Moves(), b.Moves(), con), jbnJn, jt);
      a.vBias, b.vBias := t.a.vBias, t.b.vBias;
      a.wBias, b.wBias := t.a.wBias, t.b.wBias;
      a.v, b.v := t.a.v, t.b.v;
      a.w, b.w := t.a.w, t.b.w;
      contacts[i] := con.(jBias := jbnJn.x, jnAcc := jbnJn.y, jtAcc := jt.x);
    }

    /** Both versions of the loop over the contacts. */
    method ApplyImpulse(lanes: bool)
      requires a != b && (lanes ==> Dot(surfaceVr, n) == 0.0 && u >= 0.0)
      modifies a, b, contacts
      ensures (a.Moves(), b.Moves(), contacts[..]) == Pass(Setting(), old(a.Moves()), old(b.Moves()), old(contacts[..]))
    {
      ghost var cons, env, a0, b0 := contacts[..], Setting(), a.Moves(), b.Moves();
      var i := 0;
      while i < contacts.Length
        invariant 0 <= i <= contacts.Length && Setting() == env
        invariant (a.Moves(), b.Moves(), contacts[..i]) == Pass(env, a0, b0, cons[..i]) && contacts[i..] == cons[i..]
      {
        PassStep(env, a0, b0, cons, i);
        ghost var was := contacts[..];
        if lanes {
          ApplyContactLanes(i);
        } else {
          ApplyContact(i);
        }
        StepSlices(was, cons, i, contacts[..]);
        i := i + 1;
      }
      assert cons[..i] == cons && contacts[..i] == contacts[..];
    }
  }

  lemma PassStep(env: Env, a: Motion, b: Motion, cons: seq<Contact>, i: nat)
    requires i < |cons|
    ensures var before := Pass(env, a, b, cons[..i]);
            var t := Solve(env, Touch(before.0, before.1, cons[i]));
            Pass(env, a, b, cons[..i + 1]) == (t.a, t.b, before.2 + [t.con])
  {
    assert cons[..i + 1][..i] == cons[..i];
  }

  lemma StepSlices(was: seq<Contact>, cons: seq<Contact>, i: nat, now: seq<Contact>)
    requires i < |was| == |cons| && was[i..] == cons[i..] && |now| == |was| && now == was[i := now[i]]
    ensures was[i] == cons[i] && now[..i + 1] == was[..i] + [now[i]] && now[i + 1..] == cons[i + 1..]
  {
    assert was[i..][0] == cons[i..][0];
    assert was[i + 1..] == was[i..][1..] && cons[i + 1..] == cons[i..][1..];
  }

  // ---- many bodies ----

  function Total(momenta: seq<Vect>): Vect {
    if momenta == [] then ZERO else Add(momenta[0], Total(momenta[1..]))
  }

  lemma {:induction false} TotalUpdate(s: seq<Vect>, i: nat, x: Vect)
    requires i < |s|
    ensures Add(Total(s[i := x]), s[i]) == Add(Total(s), x)
  {
    if i == 0 {
      assert s[i := x][1..] == s[1..];
    } else {
      TotalUpdate(s[1..], i - 1, x);
      assert s[i := x][1..] == s[1..][i - 1 := x];
    }
  }

  /** Two entries change without changing their sum. */
  lemma TotalKept(s: seq<Vect>, s': seq<Vect>, i: nat, j: nat)
    requires i < |s| && j < |s| && i != j && |s'| == |s| && Add(s'[i], s'[j]) == Add(s[i], s[j])
    requires forall k :: 0 <= k < |s| && k != i && k != j ==> s'[k] == s[k]
    ensures Total(s') == Total(s)
  {
    assert s' == s[i := s'[i]][j := s'[j]];
    TotalUpdate(s, i, s'[i]);
    TotalUpdate(s[i := s'[i]], j, s'[j]);
  }

  ghost function Momenta(bodies: seq<Body>): (r: seq<Vect>)
    reads bodies
    ensures |r| == |bodies| && forall k :: 0 <= k < |bodies| ==> r[k] == Momentum(bodies[k].Moves(), bodies[k].m)
  {
    seq(|bodies|, k requires 0 <= k < |bodies| reads bodies => Momentum(bodies[k].Moves(), bodies[k].m))
  }

  /** Every arbiter joins two different bodies. */
  ghost predicate Joins(arb: Arbiter, lanes: bool, bodies: seq<Body>)
    reads arb
  {
    && arb.a in bodies && arb.b in bodies && arb.a != arb.b && arb.u >= 0.0
    && (lanes ==> Dot(arb.surfaceVr, arb.n) == 0.0)
  }

  /** The arbiters have contacts of their own. */
  ghost predicate Island(arbiters: seq<Arbiter>, lanes: bool, bodies: seq<Body>)
    reads arbiters
  {
    && Distinct(bodies) && (forall arb :: arb in arbiters ==> Joins(arb, lanes, bodies))
    && (forall i, j :: 0 <= i < j < |arbiters| ==> arbiters[i].contacts != arbiters[j].contacts)
  }

  predicate AllFinite(bodies: seq<Body>) {
    forall body :: body in bodies ==> body.Finite()
  }

  ghost predicate Settled(arb: Arbiter)
    reads arb, arb.contacts
  {
    forall con :: con in arb.contacts[..] ==> Bounded(con, arb.u)
  }

  predicate FiniteMass(m: real, mass: Mass) {
    m * mass.mInv == 1.0
  }

  function PairMomentum(a: Motion, massA: real, b: Motion, massB: real): Vect {
    Add(Momentum(a, massA), Momentum(b, massB))
  }

  lemma PassKeeps(env: Env, a: Motion, b: Motion, cons: seq<Contact>, massA: real, massB: real, a': Motion,
                  b': Motion, cons': seq<Contact>)
    requires (a', b', cons') == Pass(env, a, b, cons)
    ensures env.friction >= 0.0 ==> forall con :: con in cons' ==> Bounded(con, env.friction)
    ensures FiniteMass(massA, env.a) && FiniteMass(massB, env.b)
      ==> PairMomentum(a', massA, b', massB) == PairMomentum(a, massA, b, massB)
  {
    if env.friction >= 0.0 {
      PassBounds(env, a, b, cons);
    }
    if FiniteMass(massA, env.a) && FiniteMass(massB, env.b) {
      PassConserves(env, a, b, cons, massA, massB);
    }
  }

  /** What one arbiter does to its contacts and its two bodies. */
  method SolvePair(arb: Arbiter, lanes: bool)
    requires arb.a != arb.b && arb.u >= 0.0 && (lanes ==> Dot(arb.surfaceVr, arb.n) == 0.0)
    modifies arb.a, arb.b, arb.contacts
    ensures Settled(arb)
    ensures arb.a.Finite() && arb.b.Finite() ==>
              PairMomentum(arb.a.Moves(), arb.a.m, arb.b.Moves(), arb.b.m) ==
              PairMomentum(old(arb.a.Moves()), arb.a.m, old(arb.b.Moves()), arb.b.m)
  {
    ghost var env, cons, a0, b0 := arb.Setting(), arb.contacts[..], arb.a.Moves(), arb.b.Moves();
    arb.ApplyImpulse(lanes);
    PassKeeps(env, a0, b0, cons, arb.a.m, arb.b.m, arb.a.Moves(), arb.b.Moves(), arb.contacts[..]);
  }

  /** One arbiter settles its own contacts, static bodies or not; among finite bodies no momentum is lost. */
  method SolveArbiter(arb: Arbiter, lanes: bool, ghost bodies: seq<Body>)
    requires Distinct(bodies) && Joins(arb, lanes, bodies)
    modifies arb.a, arb.b, arb.contacts
    ensures Settled(arb)
    ensures AllFinite(bodies) ==> Total(Momenta(bodies)) == Total(old(Momenta(bodies)))
  {
    ghost var before := Momenta(bodies);
    ghost var i :| 0 <= i < |bodies| && bodies[i] == arb.a;
    ghost var j :| 0 <= j < |bodies| && bodies[j] == arb.b;
    SolvePair(arb, lanes);
    if AllFinite(bodies) {
      assert bodies[i].Finite() && bodies[j].Finite();
      TotalKept(before, Momenta(bodies), i, j);
    }
  }

  /** The contact part of the solver: every arbiter in turn, iterations times over. */
  method Solver(arbiters: seq<Arbiter>, iterations: nat, lanes: bool, ghost bodies: seq<Body>)
    requires Island(arbiters, lanes, bodies)
    modifies bodies, set arb | arb in arbiters :: arb.contacts
    ensures iterations > 0 ==> forall arb :: arb in arbiters ==> Settled(arb)
    ensures AllFinite(bodies) ==> Total(Momenta(bodies)) == Total(old(Momenta(bodies)))
  {
    var i := 0;
    while i < iterations
      invariant 0 <= i <= iterations
      invariant AllFinite(bodies) ==> Total(Momenta(bodies)) == Total(old(Momenta(bodies)))
      invariant i > 0 ==> forall arb :: arb in arbiters ==> Settled(arb)
    {
      var j := 0;
      while j < |arbiters|
        invariant 0 <= j <= |arbiters|
        invariant AllFinite(bodies) ==> Total(Momenta(bodies)) == Total(old(Momenta(bodies)))
        invariant forall k :: 0 <= k < j ==> Settled(arbiters[k])
      {
        assert Joins(arbiters[j], lanes, bodies);
        SolveArbiter(arbiters[j], lanes, bodies);
        j := j + 1;
      }
      i := i + 1;
    }
  }
}
