/** What the impulses of a contact do to the velocities at the contact. */
module ContactMotion {
  import opened Reals
  import opened Vectors
  import opened ContactSolver

  /** How fast the point at r of a body moves in direction d. */
  function PointSpeed(v: Vect, w: real, r: Vect, d: Vect): real {
    (v.x - r.y * w) * d.x + (v.y + r.x * w) * d.y
  }

  /** How fast body b leaves body a at the contact, in direction d; the same for the velocities that only correct
      positions. */
  function Speed(a: Motion, b: Motion, con: Contact, d: Vect): real {
    PointSpeed(b.v, b.w, con.r2, d) - PointSpeed(a.v, a.w, con.r1, d)
  }

  function BiasSpeed(a: Motion, b: Motion, con: Contact, d: Vect): real {
    PointSpeed(b.vBias, b.wBias, con.r2, d) - PointSpeed(a.vBias, a.wBias, con.r1, d)
  }

  /** How much an impulse of 1 in direction d changes the speed in direction e. */
  function Response(env: Env, con: Contact, d: Vect, e: Vect): real {
    BodyResponse(env.a, con.r1, d, e) + BodyResponse(env.b, con.r2, d, e)
  }

  function BodyResponse(mass: Mass, r: Vect, d: Vect, e: Vect): real {
    mass.mInv * (d.x * e.x + d.y * e.y) + mass.iInv * ((r.x * d.y - r.y * d.x) * (r.x * e.y - r.y * e.x))
  }

  function Tangent(n: Vect): Vect {
    Vect(-n.y, n.x)
  }

  // ---- velocities before and after ----

  lemma Turns(iInv: real, rj: real, r: Vect, d: Vect)
    ensures PointSpeed(Vect(0.0, 0.0), iInv * rj, r, d) == iInv * (rj * (r.x * d.y - r.y * d.x))
  {
    var w := iInv * rj;
    assert (0.0 - r.y * w) * d.x + (0.0 + r.x * w) * d.y == w * (r.x * d.y - r.y * d.x);
  }

  lemma SpeedAdds(v: Vect, w: real, u: Vect, x: real, r: Vect, d: Vect)
    ensures PointSpeed(Add(v, u), w + x, r, d) == PointSpeed(v, w, r, d) + PointSpeed(u, x, r, d)
  {
    SumTimes(v.x, w, u.x, x, -r.y, d.x);
    SumTimes(v.y, w, u.y, x, r.x, d.y);
  }

  lemma SumTimes(v: real, w: real, u: real, x: real, r: real, d: real)
    ensures ((v + u) + r * (w + x)) * d == (v + r * w) * d + (u + r * x) * d
  {
  }

  lemma Pushes(u: Vect, x: real, r: Vect, d: Vect)
    ensures PointSpeed(u, x, r, d) == (u.x * d.x + u.y * d.y) + PointSpeed(Vect(0.0, 0.0), x, r, d)
  {
  }

  /** An impulse j at r, applied forwards or backwards. */
  lemma BodyGains(v: Vect, w: real, mass: Mass, j: Vect, r: Vect, d: Vect)
    ensures PointSpeed(Add(v, Mult(j, mass.mInv)), w + mass.iInv * Cross(r, j), r, d)
      == PointSpeed(v, w, r, d) + BodyResponse(mass, r, j, d)
  {
    SpeedAdds(v, w, Mult(j, mass.mInv), mass.iInv * Cross(r, j), r, d);
    Pushes(Mult(j, mass.mInv), mass.iInv * Cross(r, j), r, d);
    Turns(mass.iInv, Cross(r, j), r, d);
    MassTimes(j.x, j.y, mass.mInv, d);
  }

  lemma MassTimes(x: real, y: real, mInv: real, d: Vect)
    ensures (x * mInv) * d.x + (y * mInv) * d.y == mInv * (x * d.x + y * d.y)
  {
  }

  lemma ResponseNeg(mass: Mass, r: Vect, j: Vect, d: Vect)
    ensures BodyResponse(mass, r, Neg(j), d) == -BodyResponse(mass, r, j, d)
  {
    var p, q, s := j.x * d.x + j.y * d.y, r.x * j.y - r.y * j.x, r.x * d.y - r.y * d.x;
    assert -j.x * d.x + -j.y * d.y == -p;
    assert r.x * -j.y - r.y * -j.x == -q;
    NegTimes(mass.mInv, mass.iInv, p, q, s);
  }

  lemma NegTimes(m: real, i: real, p: real, q: real, s: real)
    ensures m * -p + i * (-q * s) == -(m * p + i * (q * s))
  {
  }

  lemma ResponseLinear(mass: Mass, r: Vect, n: Vect, jn: real, jt: real, d: Vect)
    ensures BodyResponse(mass, r, Rotate(n, Vect(jn, jt)), d)
      == jn * BodyResponse(mass, r, n, d) + jt * BodyResponse(mass, r, Tangent(n), d)
  {
    var j, t := Rotate(n, Vect(jn, jt)), Tangent(n);
    assert j.x == jn * n.x + jt * t.x && j.y == jn * n.y + jt * t.y;
    Mixes(jn, jt, n.x, n.y, t.x, t.y, d.x, d.y);
    Mixes(jn, jt, n.y, n.x, t.y, t.x, r.x, -r.y);
    Spreads(mass.mInv, mass.iInv, jn, jt, n.x * d.x + n.y * d.y, t.x * d.x + t.y * d.y, r.x * n.y - r.y * n.x,
      r.x * t.y - r.y * t.x, r.x * d.y - r.y * d.x);
  }

  lemma Mixes(a: real, b: real, nx: real, ny: real, tx: real, ty: real, x: real, y: real)
    ensures (a * nx + b * tx) * x + (a * ny + b * ty) * y == a * (nx * x + ny * y) + b * (tx * x + ty * y)
  {
  }

  lemma Spreads(m: real, i: real, a: real, b: real, p: real, q: real, u: real, v: real, s: real)
    ensures m * (a * p + b * q) + i * ((a * u + b * v) * s) == a * (m * p + i * (u * s)) + b * (m * q + i * (v * s))
  {
  }

  /** The bodies of a contact after equal and opposite impulses j. */
  lemma PairGains(a: Motion, b: Motion, env: Env, con: Contact, j: Vect, d: Vect)
    ensures Speed(ApplyImpulse(a, env.a, Neg(j), con.r1), ApplyImpulse(b, env.b, j, con.r2), con, d)
      == Speed(a, b, con, d) + Response(env, con, j, d)
  {
    BodyGains(a.v, a.w, env.a, Neg(j), con.r1, d);
    BodyGains(b.v, b.w, env.b, j, con.r2, d);
    ResponseNeg(env.a, con.r1, j, d);
  }

  lemma PairBiasGains(a: Motion, b: Motion, env: Env, con: Contact, j: Vect, d: Vect)
    ensures BiasSpeed(ApplyBiasImpulse(a, env.a, Neg(j), con.r1), ApplyBiasImpulse(b, env.b, j, con.r2), con, d)
      == BiasSpeed(a, b, con, d) + Response(env, con, j, d)
  {
    BodyGains(a.vBias, a.wBias, env.a, Neg(j), con.r1, d);
    BodyGains(b.vBias, b.wBias, env.b, j, con.r2, d);
    ResponseNeg(env.a, con.r1, j, d);
  }

  lemma AlongNormal(n: Vect, j: real)
    ensures Mult(n, j) == Rotate(n, Vect(j, 0.0))
  {
  }

  lemma ResponseTo(env: Env, con: Contact, jn: real, jt: real, d: Vect)
    ensures Response(env, con, Rotate(env.n, Vect(jn, jt)), d)
      == jn * Response(env, con, env.n, d) + jt * Response(env, con, Tangent(env.n), d)
  {
    ResponseLinear(env.a, con.r1, env.n, jn, jt, d);
    ResponseLinear(env.b, con.r2, env.n, jn, jt, d);
    Regroup(jn, jt, BodyResponse(env.a, con.r1, env.n, d), BodyResponse(env.b, con.r2, env.n, d),
      BodyResponse(env.a, con.r1, Tangent(env.n), d), BodyResponse(env.b, con.r2, Tangent(env.n), d));
  }

  lemma SameSpeed(a: Motion, b: Motion, a': Motion, b': Motion, con: Contact, d: Vect)
    ensures a.v == a'.v && a.w == a'.w && b.v == b'.v && b.w == b'.w ==> Speed(a, b, con, d) == Speed(a', b', con, d)
    ensures a.vBias == a'.vBias && a.wBias == a'.wBias && b.vBias == b'.vBias && b.wBias == b'.wBias ==>
              BiasSpeed(a, b, con, d) == BiasSpeed(a', b', con, d)
  {
  }

  /** The impulses jn, jt and jb that con' adds. */
  ghost predicate Adds(con: Contact, con': Contact, jn: real, jt: real, jb: real) {
    con'.jnAcc == con.jnAcc + jn && con'.jtAcc == con.jtAcc + jt && con'.jBias == con.jBias + jb
  }

  lemma ExchangeIs(env: Env, t: Touch, con': Contact, jn: real, jt: real, jb: real)
    requires Adds(t.con, con', jn, jt, jb)
    ensures var jBias, j := Mult(env.n, jb), Rotate(env.n, Vect(jn, jt));
            Exchange(env, t, con') ==
              Touch(ApplyImpulse(ApplyBiasImpulse(t.a, env.a, Neg(jBias), t.con.r1), env.a, Neg(j), t.con.r1),
                ApplyImpulse(ApplyBiasImpulse(t.b, env.b, jBias, t.con.r2), env.b, j, t.con.r2),
                con')
  {
    assert con'.jnAcc - t.con.jnAcc == jn && con'.jtAcc - t.con.jtAcc == jt && con'.jBias - t.con.jBias == jb;
  }

  lemma ExchangeMoves(env: Env, t: Touch, con': Contact, jn: real, jt: real, jb: real, d: Vect)
    requires Adds(t.con, con', jn, jt, jb)
    ensures var t' := Exchange(env, t, con');
            && Speed(t'.a, t'.b, t.con, d) == Speed(t.a, t.b, t.con, d)
                 + Response(env, t.con, Rotate(env.n, Vect(jn, jt)), d)
            && BiasSpeed(t'.a, t'.b, t.con, d) == BiasSpeed(t.a, t.b, t.con, d)
                 + Response(env, t.con, Rotate(env.n, Vect(jb, 0.0)), d)
  {
    var t', con := Exchange(env, t, con'), t.con;
    var jBias, j := Mult(env.n, jb), Rotate(env.n, Vect(jn, jt));
    ExchangeIs(env, t, con', jn, jt, jb);
    var a, b := ApplyBiasImpulse(t.a, env.a, Neg(jBias), con.r1), ApplyBiasImpulse(t.b, env.b, jBias, con.r2);
    SameSpeed(a, b, t.a, t.b, con, d);
    SameSpeed(a, b, t'.a, t'.b, con, d);
    PairGains(a, b, env, con, j, d);
    PairBiasGains(t.a, t.b, env, con, jBias, d);
    AlongNormal(env.n, jb);
  }

  /** One round changes the speeds at the contact by the new normal and friction impulse, in every direction: rn and rt
      are the responses to the two. */
  lemma SolveMoves(env: Env, t: Touch, d: Vect, jn: real, jt: real, jb: real, rn: real, rt: real)
    requires Adds(t.con, Solve(env, t).con, jn, jt, jb)
    requires rn == Response(env, t.con, env.n, d) && rt == Response(env, t.con, Tangent(env.n), d)
    ensures Speed(Solve(env, t).a, Solve(env, t).b, t.con, d) == Speed(t.a, t.b, t.con, d) + (jn * rn + jt * rt)
    ensures BiasSpeed(Solve(env, t).a, Solve(env, t).b, t.con, d) == BiasSpeed(t.a, t.b, t.con, d) + jb * rn
  {
    ExchangeMoves(env, t, Accumulate(env, t.a, t.b, t.con), jn, jt, jb, d);
    ResponseWith(env, t.con, jn, jt, d, rn, rt);
    ResponseWith(env, t.con, jb, 0.0, d, rn, rt);
  }

  lemma ResponseWith(env: Env, con: Contact, jn: real, jt: real, d: Vect, rn: real, rt: real)
    requires rn == Response(env, con, env.n, d) && rt == Response(env, con, Tangent(env.n), d)
    ensures Response(env, con, Rotate(env.n, Vect(jn, jt)), d) == jn * rn + jt * rt
  {
    ResponseTo(env, con, jn, jt, d);
  }

  lemma Regroup(x: real, y: real, a: real, b: real, c: real, d: real)
    ensures (x * a + y * c) + (x * b + y * d) == x * (a + b) + y * (c + d)
  {
  }

  // ---- what the impulses achieve ----

  lemma SpeedIs(a: Motion, b: Motion, con: Contact, d: Vect)
    ensures Dot(RelativeVelocity(a, b, con.r1, con.r2), d) == Speed(a, b, con, d)
    ensures Dot(RelativeBias(a, b, con.r1, con.r2), d) == BiasSpeed(a, b, con, d)
  {
    Apart(b.v.x + -con.r2.y * b.w, a.v.x + -con.r1.y * a.w, d.x);
    Apart(b.v.y + con.r2.x * b.w, a.v.y + con.r1.x * a.w, d.y);
    Apart(b.vBias.x + -con.r2.y * b.wBias, a.vBias.x + -con.r1.y * a.wBias, d.x);
    Apart(b.vBias.y + con.r2.x * b.wBias, a.vBias.y + con.r1.x * a.wBias, d.y);
  }

  lemma Apart(x: real, y: real, d: real)
    ensures (x - y) * d == x * d - y * d
  {
  }

  lemma ResponseAtLeast(env: Env, con: Contact, d: Vect)
    requires env.a.mInv >= 0.0 && env.a.iInv >= 0.0 && env.b.mInv >= 0.0 && env.b.iInv >= 0.0
    ensures Response(env, con, d, d) >= 0.0
  {
    BodyAtLeast(env.a, con.r1, d);
    BodyAtLeast(env.b, con.r2, d);
  }

  lemma BodyAtLeast(mass: Mass, r: Vect, d: Vect)
    requires mass.mInv >= 0.0 && mass.iInv >= 0.0
    ensures BodyResponse(mass, r, d, d) >= 0.0
  {
    Squared(d.x);
    Squared(d.y);
    Squared(r.x * d.y - r.y * d.x);
    NonNegative(mass.mInv, d.x * d.x + d.y * d.y);
    NonNegative(mass.iInv, (r.x * d.y - r.y * d.x) * (r.x * d.y - r.y * d.x));
  }

  lemma Squared(x: real)
    ensures x * x >= 0.0
  {
    if x >= 0.0 {
      NonNegative(x, x);
    } else {
      NonNegative(-x, -x);
      assert -x * -x == x * x;
    }
  }

  /** An impulse that is never negative drives a speed to its target, or is 0 and the speed is above. */
  lemma Driven(jOld: real, target: real, speed: real, mass: real, response: real, j: real, new_: real)
    requires mass * response == 1.0 && response >= 0.0 && j == Max(jOld + (target - speed) * mass, 0.0)
    requires new_ == j - jOld
    ensures var after := speed + new_ * response;
            after == target || (j == 0.0 && after >= target)
  {
    var push := (target - speed) * mass;
    assert push * response == target - speed;
    if jOld + push < 0.0 {
      NonNegative(new_ - push, response);
      assert (new_ - push) * response == new_ * response - push * response;
    } else {
      assert new_ == push;
    }
  }

  lemma Slides(jOld: real, speed: real, mass: real, response: real, friction: real, jn: real)
    requires mass * response == 1.0 && response >= 0.0 && friction >= 0.0 && jn >= 0.0
    ensures var j := Cone(jOld, speed, mass, friction, jn);
            var after := speed + (j - jOld) * response;
            || after == 0.0
            || (j == friction * jn && after <= 0.0)
            || (j == -(friction * jn) && after >= 0.0)
  {
    NonNegative(friction, jn);
    var push, hi := -speed * mass, friction * jn;
    assert push * response == -speed;
    Clamped(jOld, speed, push, response, Cone(jOld, speed, mass, friction, jn), hi);
  }

  lemma Clamped(jOld: real, speed: real, push: real, response: real, j: real, hi: real)
    requires push * response == -speed && response >= 0.0 && hi >= 0.0 && j == Clamp(jOld + push, -hi, hi)
    ensures var after := speed + (j - jOld) * response;
            after == 0.0 || (j == hi && after <= 0.0) || (j == -hi && after >= 0.0)
  {
    var more := j - jOld - push;
    assert (j - jOld) * response == push * response + more * response;
    if more > 0.0 {
      NonNegative(more, response);
    } else {
      NonNegative(-more, response);
      assert -more * response == -(more * response);
    }
  }

  predicate Solid(env: Env) {
    env.a.mInv >= 0.0 && env.a.iInv >= 0.0 && env.b.mInv >= 0.0 && env.b.iInv >= 0.0
  }

  /** The normal impulse alone makes the bodies leave each other with the bounce speed, or it has gone and they leave
      each other faster. */
  lemma NormalStops(env: Env, t: Touch)
    requires Solid(env) && t.con.nMass * Response(env, t.con, env.n, env.n) == 1.0
    ensures var j := Solve(env, t).con.jnAcc;
            var after := Speed(t.a, t.b, t.con, env.n) + (env.surfaceVr.x * env.n.x + env.surfaceVr.y * env.n.y)
                         + (j - t.con.jnAcc) * Response(env, t.con, env.n, env.n);
            after == -t.con.bounce || (j == 0.0 && after >= -t.con.bounce)
  {
    var con, vr := t.con, RelativeVelocity(t.a, t.b, t.con.r1, t.con.r2);
    SpeedIs(t.a, t.b, con, env.n);
    DotAdds(vr, env.surfaceVr, env.n);
    ResponseAtLeast(env, con, env.n);
    var speed := Dot(Add(vr, env.surfaceVr), env.n);
    assert -(con.bounce + speed) * con.nMass == (-con.bounce - speed) * con.nMass;
    Driven(con.jnAcc, -con.bounce, speed, con.nMass, Response(env, con, env.n, env.n), Solve(env, t).con.jnAcc,
      Solve(env, t).con.jnAcc - con.jnAcc);
  }

  lemma BiasIs(env: Env, t: Touch, speed: real)
    requires speed == BiasSpeed(t.a, t.b, t.con, env.n)
    ensures Solve(env, t).con.jBias == Max(t.con.jBias + (t.con.bias - speed) * t.con.nMass, 0.0)
  {
    SpeedIs(t.a, t.b, t.con, env.n);
  }

  lemma BiasDriven(env: Env, t: Touch, speed: real, rn: real, jb: real)
    requires Solid(env) && t.con.nMass * rn == 1.0 && rn == Response(env, t.con, env.n, env.n)
    requires speed == BiasSpeed(t.a, t.b, t.con, env.n) && jb == Solve(env, t).con.jBias - t.con.jBias
    ensures var after := speed + jb * rn;
            after == t.con.bias || (Solve(env, t).con.jBias == 0.0 && after >= t.con.bias)
  {
    ResponseAtLeast(env, t.con, env.n);
    BiasIs(env, t, speed);
    Driven(t.con.jBias, t.con.bias, speed, t.con.nMass, rn, Solve(env, t).con.jBias, jb);
  }

  lemma BiasAfter(env: Env, t: Touch, speed: real, rn: real, jb: real)
    requires rn == Response(env, t.con, env.n, env.n) && speed == BiasSpeed(t.a, t.b, t.con, env.n)
    requires jb == Solve(env, t).con.jBias - t.con.jBias
    ensures BiasSpeed(Solve(env, t).a, Solve(env, t).b, t.con, env.n) == speed + jb * rn
  {
    SolveMoves(env, t, env.n, Solve(env, t).con.jnAcc - t.con.jnAcc, Solve(env, t).con.jtAcc - t.con.jtAcc, jb, rn,
      Response(env, t.con, Tangent(env.n), env.n));
  }

  /** The position correction in the same way drives its speed to the bias. */
  lemma BiasCorrects(env: Env, t: Touch, response: real)
    requires Solid(env) && t.con.nMass * response == 1.0 && response == Response(env, t.con, env.n, env.n)
    ensures var after := BiasSpeed(Solve(env, t).a, Solve(env, t).b, t.con, env.n);
            after == t.con.bias || (Solve(env, t).con.jBias == 0.0 && after >= t.con.bias)
  {
    var speed, jb := BiasSpeed(t.a, t.b, t.con, env.n), Solve(env, t).con.jBias - t.con.jBias;
    BiasDriven(env, t, speed, response, jb);
    BiasAfter(env, t, speed, response, jb);
  }

  /** How fast the surfaces slide along each other. */
  function Sliding(env: Env, a: Motion, b: Motion, con: Contact): real {
    Speed(a, b, con, Tangent(env.n)) + (env.surfaceVr.x * -env.n.y + env.surfaceVr.y * env.n.x)
  }

  lemma SlidingIs(env: Env, a: Motion, b: Motion, con: Contact)
    ensures Dot(Add(RelativeVelocity(a, b, con.r1, con.r2), env.surfaceVr), Perp(env.n)) == Sliding(env, a, b, con)
  {
    SpeedIs(a, b, con, Tangent(env.n));
    DotAdds(RelativeVelocity(a, b, con.r1, con.r2), env.surfaceVr, Perp(env.n));
  }

  lemma FrictionIs(env: Env, t: Touch, slide: real, jn: real)
    requires slide == Dot(Add(RelativeVelocity(t.a, t.b, t.con.r1, t.con.r2), env.surfaceVr), Perp(env.n))
    requires jn == Solve(env, t).con.jnAcc
    ensures Solve(env, t).con.jtAcc == Cone(t.con.jtAcc, slide, t.con.tMass, env.friction, jn)
  {
  }

  lemma NoPulling(env: Env, t: Touch)
    ensures Solve(env, t).con.jnAcc >= 0.0
  {
  }

  lemma FrictionFor(env: Env, t: Touch, slide: real, response: real, jn: real, jt: real)
    requires env.friction >= 0.0 && t.con.tMass * response == 1.0 && response >= 0.0
    requires slide == Dot(Add(RelativeVelocity(t.a, t.b, t.con.r1, t.con.r2), env.surfaceVr), Perp(env.n))
    requires jn == Solve(env, t).con.jnAcc && jt == Solve(env, t).con.jtAcc
    ensures var after := slide + (jt - t.con.jtAcc) * response;
            || after == 0.0
            || (jt == env.friction * jn && after <= 0.0)
            || (jt == -(env.friction * jn) && after >= 0.0)
  {
    FrictionIs(env, t, slide, jn);
    NoPulling(env, t);
    Slides(t.con.jtAcc, slide, t.con.tMass, response, env.friction, jn);
  }

  lemma FrictionSetting(env: Env, t: Touch, slide: real, response: real)
    requires Solid(env) && slide == Sliding(env, t.a, t.b, t.con)
    requires response == Response(env, t.con, Tangent(env.n), Tangent(env.n))
    ensures response >= 0.0
    ensures slide == Dot(Add(RelativeVelocity(t.a, t.b, t.con.r1, t.con.r2), env.surfaceVr), Perp(env.n))
  {
    SlidingIs(env, t.a, t.b, t.con);
    ResponseAtLeast(env, t.con, Tangent(env.n));
  }

  /** The friction impulse alone ends the sliding, or it is at the edge of the cone and acts against what sliding is
      left. */
  lemma FrictionOpposes(env: Env, t: Touch, slide: real, response: real, jn: real, jt: real)
    requires Solid(env) && env.friction >= 0.0 && t.con.tMass * response == 1.0
    requires slide == Sliding(env, t.a, t.b, t.con) && response == Response(env, t.con, Tangent(env.n), Tangent(env.n))
    requires jn == Solve(env, t).con.jnAcc && jt == Solve(env, t).con.jtAcc
    ensures var after := slide + (jt - t.con.jtAcc) * response;
            || after == 0.0
            || (jt == env.friction * jn && after <= 0.0)
            || (jt == -(env.friction * jn) && after >= 0.0)
  {
    FrictionSetting(env, t, slide, response);
    FrictionFor(env, t, slide, response, jn, jt);
  }

  /** With the contact alone at the bodies' centres nothing couples the two directions: the speeds are final. */
  lemma CentralContact(env: Env, t: Touch)
    requires t.con.r1 == ZERO && t.con.r2 == ZERO
    ensures Response(env, t.con, env.n, Tangent(env.n)) == 0.0 && Response(env, t.con, Tangent(env.n), env.n) == 0.0
  {
    assert env.n.x * -env.n.y + env.n.y * env.n.x == 0.0;
  }
}
