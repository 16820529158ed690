/** Pop particles: creation, the per-frame update, the death test, and the
    update-and-prune pass the frame loop runs over the particle collection. */
module Particles {
  import opened Colors
  import opened RandomDraws

  /** Number of particles one pop spawns. */
  const BurstSize: nat := 20
  /** Alpha a particle is born with (fully opaque). */
  const BirthAlpha: int := 255
  /** Alpha lost per update. */
  const Fade: int := 5

  /** One particle. Position, velocity and size are reals; alpha is the integer the
      sketch decrements. */
  datatype Particle = Particle(x: real, y: real, vx: real, vy: real, color: Color, alpha: int, size: real)

  /** The random inputs of one particle: the unit direction vector of random2D, and the
      draws for the speed multiplier and the size. */
  datatype ParticleDraw = ParticleDraw(dirX: real, dirY: real, speed: real, size: real)

  predicate ValidParticleDraw(d: ParticleDraw)
  {
    d.dirX * d.dirX + d.dirY * d.dirY == 1.0 && IsUnit(d.speed) && IsUnit(d.size)
  }

  /** The particle constructor: spawned at (x, y) with the given colour, fully opaque, with a
      random direction scaled by a speed in [2, 5) and a size in [3, 8). */
  function NewParticle(x: real, y: real, color: Color, d: ParticleDraw): (p: Particle)
    requires ValidParticleDraw(d)
    ensures p.x == x && p.y == y && p.color == color && p.alpha == BirthAlpha
    ensures 3.0 <= p.size < 8.0
  {
    var m := Random(d.speed, 2.0, 5.0);
    Particle(x, y, d.dirX * m, d.dirY * m, color, BirthAlpha, Random(d.size, 3.0, 8.0))
  }

  /** Particle.update: move by the velocity, add gravity 0.1 to the vertical velocity, damp
      both components by 0.98, and fade by 5. Colour and size never change. */
  function Step(p: Particle): (q: Particle)
    ensures q.alpha == p.alpha - Fade
    ensures q.color == p.color && q.size == p.size
  {
    var vy := p.vy + 0.1;
    Particle(p.x + p.vx, p.y + p.vy, p.vx * 0.98, vy * 0.98, p.color, p.alpha - Fade, p.size)
  }

  /** Particle.isDead. */
  predicate IsDead(p: Particle)
  {
    p.alpha <= 0
  }

  /** The burst of one pop: BurstSize particles at (x, y) in the given colour, one per draw. */
  function Burst(x: real, y: real, color: Color, draws: seq<ParticleDraw>): (ps: seq<Particle>)
    requires |draws| == BurstSize
    requires forall i :: 0 <= i < |draws| ==> ValidParticleDraw(draws[i])
    ensures |ps| == BurstSize
    ensures forall i :: 0 <= i < |ps| ==> ps[i].x == x && ps[i].y == y && ps[i].color == color && ps[i].alpha == BirthAlpha
  {
    seq(BurstSize, i requires 0 <= i < BurstSize => NewParticle(x, y, color, draws[i]))
  }

  /** One frame of the particle pass: every particle is updated once, and those dead after
      their update are dropped. Survivors are all alive and never outnumber the input. */
  function Sweep(ps: seq<Particle>): (r: seq<Particle>)
    ensures |r| <= |ps|
    ensures forall q :: q in r ==> !IsDead(q)
  {
    if ps == [] then []
    else
      var q := Step(ps[0]);
      (if IsDead(q) then [] else [q]) + Sweep(ps[1..])
  }

  /** Sweep keeps exactly the updated particles that are alive. */
  lemma {:induction false} SweepMembers(ps: seq<Particle>, q: Particle)
    ensures q in Sweep(ps) <==> exists i :: 0 <= i < |ps| && q == Step(ps[i]) && !IsDead(q)
  {
    if ps != [] {
      SweepMembers(ps[1..], q);
      if q in Sweep(ps[1..]) {
        var i :| 0 <= i < |ps[1..]| && q == Step(ps[1..][i]) && !IsDead(q);
        assert q == Step(ps[i + 1]);
      }
      if exists i :: 0 <= i < |ps| && q == Step(ps[i]) && !IsDead(q) {
        var i :| 0 <= i < |ps| && q == Step(ps[i]) && !IsDead(q);
        if i > 0 {
          assert q == Step(ps[1..][i - 1]);
        }
      }
    }
  }

  /** Sweep works element by element: pruning a concatenation prunes each part and keeps
      them in order, so survivors keep their relative order. */
  lemma {:induction false} SweepAppend(a: seq<Particle>, b: seq<Particle>)
    ensures Sweep(a + b) == Sweep(a) + Sweep(b)
  {
    if a == [] {
      assert a + b == b;
    } else {
      assert (a + b)[1..] == a[1..] + b;
      SweepAppend(a[1..], b);
    }
  }

  /** A particle updated n times. */
  function Aged(p: Particle, n: nat): Particle
  {
    if n == 0 then p else Step(Aged(p, n - 1))
  }

  /** Each update lowers alpha by exactly 5, so n updates lower it by 5n. */
  lemma {:induction false} AgedAlpha(p: Particle, n: nat)
    ensures Aged(p, n).alpha == p.alpha - Fade * n
  {
    if n > 0 {
      AgedAlpha(p, n - 1);
    }
  }

  /** A particle born at alpha 255 is alive after 50 updates and dead after exactly 51. */
  lemma DeadAfterExactly51(p: Particle)
    requires p.alpha == BirthAlpha
    ensures forall n: nat :: n <= 50 ==> !IsDead(Aged(p, n))
    ensures IsDead(Aged(p, 51))
  {
    forall n: nat | n <= 51 ensures Aged(p, n).alpha == BirthAlpha - Fade * n {
      AgedAlpha(p, n);
    }
  }

  /** The particle collection after n frames. */
  function Frames(ps: seq<Particle>, n: nat): seq<Particle>
  {
    if n == 0 then ps else Sweep(Frames(ps, n - 1))
  }

  /** A newly spawned particle stays in the collection for 50 frames and is removed in the
      51st, the frame in which its alpha reaches 0. */
  lemma {:induction false} BurstParticleLifetime(p: Particle, n: nat)
    requires p.alpha == BirthAlpha
    ensures Frames([p], n) == if n <= 50 then [Aged(p, n)] else []
  {
    if n > 0 {
      BurstParticleLifetime(p, n - 1);
      AgedAlpha(p, n);
    }
  }
}
