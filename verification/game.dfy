/** The sketch's global state and its two entry points: the pointer-press handler and the
    per-frame update. */
module Sketch {
  import opened Colors
  import opened Particles
  import opened Balloons

  /** Number of balloons created at setup; the collection never changes size. */
  const BalloonCount: nat := 30

  /** A balloon the press at (px, py) may pop: it contains the point and is not already popped. */
  predicate Eligible(b: Balloon, px: real, py: real)
  {
    Contains(b, px, py) && !b.exploding
  }

  /** The balloon a press at (px, py) selects: the highest index holding an eligible balloon,
      or -1 when there is none. */
  function HitIndex(s: seq<Balloon>, px: real, py: real): (k: int)
    ensures -1 <= k < |s|
    ensures k >= 0 ==> Eligible(s[k], px, py)
    ensures forall j :: k < j < |s| ==> !Eligible(s[j], px, py)
  {
    if |s| == 0 then -1
    else if Eligible(s[|s| - 1], px, py) then |s| - 1
    else HitIndex(s[..|s| - 1], px, py)
  }

  /** A second press at the same point never selects the balloon the first press popped: it
      selects a lower index or nothing, so a popped balloon is never scored twice. */
  lemma RepressSkipsPopped(s: seq<Balloon>, px: real, py: real)
    requires HitIndex(s, px, py) >= 0
    ensures var k := HitIndex(s, px, py);
            HitIndex(s[k := s[k].(exploding := true)], px, py) < k
  {
  }

  /** Every particle between frames is alive, born at 255 and faded in steps of 5. */
  predicate LiveParticle(p: Particle)
  {
    0 < p.alpha <= BirthAlpha && p.alpha % Fade == 0
  }

  /** The particle pass keeps the collection live: every survivor faded by 5 from a live
      particle and is still above 0. */
  lemma SweepKeepsLive(ps: seq<Particle>)
    requires forall p :: p in ps ==> LiveParticle(p)
    ensures forall q :: q in Sweep(ps) ==> LiveParticle(q)
  {
    forall q | q in Sweep(ps) ensures LiveParticle(q) {
      SweepMembers(ps, q);
      var j :| 0 <= j < |ps| && q == Step(ps[j]) && !IsDead(q);
      assert ps[j] in ps;
      assert q.alpha == ps[j].alpha - Fade;
    }
  }

  class Game {
    /** Set by the first press; nothing moves before it. */
    var started: bool
    var score: int
    const circles: array<Balloon>
    var particles: seq<Particle>
    /** Canvas size: set at setup and by every resize. */
    var width: real
    var height: real

    ghost predicate Valid()
      reads this, circles
    {
      circles.Length == BalloonCount &&
      (forall i :: 0 <= i < circles.Length ==> WellFormed(circles[i])) &&
      (forall p :: p in particles ==> LiveParticle(p))
    }

    /** setup: BalloonCount fresh balloons, no particles, score 0, not yet started. */
    constructor (width: real, height: real, spawns: seq<BalloonDraw>)
      requires |spawns| == BalloonCount
      requires forall i :: 0 <= i < |spawns| ==> ValidBalloonDraw(spawns[i])
      ensures Valid() && fresh(circles)
      ensures !started && score == 0 && particles == []
      ensures this.width == width && this.height == height
      ensures forall i :: 0 <= i < circles.Length ==> circles[i] == NewBalloon(spawns[i], width, height)
    {
      var a := new Balloon[BalloonCount];
      for i := 0 to BalloonCount
        invariant forall j :: 0 <= j < i ==> a[j] == NewBalloon(spawns[j], width, height)
      {
        a[i] := NewBalloon(spawns[i], width, height);
      }
      this.width, this.height := width, height;
      circles := a;
      started, score, particles := false, 0, [];
    }

    /** windowResized: the canvas takes the new window size, which later creations and
        resets read; no balloon, particle, score or flag changes. */
    method WindowResized(newWidth: real, newHeight: real)
      requires Valid()
      modifies this
      ensures Valid()
      ensures width == newWidth && height == newHeight
      ensures started == old(started) && score == old(score) && particles == old(particles)
      ensures circles[..] == old(circles[..])
    {
      width, height := newWidth, newHeight;
    }

    /** Circle.explode, particle part: appends one burst at balloon b's position in its
        colour. The audio playback is not modelled. */
    method Explode(b: Balloon, draws: seq<ParticleDraw>)
      requires |draws| == BurstSize
      requires forall i :: 0 <= i < |draws| ==> ValidParticleDraw(draws[i])
      modifies this
      ensures particles == old(particles) + Burst(b.x, b.y, b.color, draws)
      ensures started == old(started) && score == old(score)
      ensures width == old(width) && height == old(height)
    {
      ghost var burst := Burst(b.x, b.y, b.color, draws);
      for i := 0 to BurstSize
        invariant particles == old(particles) + burst[..i]
        invariant started == old(started) && score == old(score)
        invariant width == old(width) && height == old(height)
      {
        particles := particles + [NewParticle(b.x, b.y, b.color, draws[i])];
        assert burst[..i + 1] == burst[..i] + [burst[i]];
      }
    }

    /** mousePressed. The first press only starts the sketch. Every later press pops at most
        one balloon, the one HitIndex selects: the score moves by +1 for the bonus colour and
        -1 otherwise, one burst is appended, and that balloon alone is flagged exploding. A
        press that selects nothing changes nothing. */
    method MousePressed(px: real, py: real, draws: seq<ParticleDraw>)
      requires Valid()
      requires |draws| == BurstSize
      requires forall i :: 0 <= i < |draws| ==> ValidParticleDraw(draws[i])
      modifies this, circles
      ensures Valid() && started
      ensures width == old(width) && height == old(height)
      ensures !old(started) ==>
        score == old(score) && particles == old(particles) && circles[..] == old(circles[..])
      ensures old(started) ==>
        var k := HitIndex(old(circles[..]), px, py);
        if k < 0 then
          score == old(score) && particles == old(particles) && circles[..] == old(circles[..])
        else
          var hit := old(circles[k]);
          score == old(score) + ScoreDelta(hit.color) &&
          particles == old(particles) + Burst(hit.x, hit.y, hit.color, draws) &&
          circles[..] == old(circles[..])[k := hit.(exploding := true)]
    {
      if !started {
        started := true;
        return;
      }
      var i := circles.Length - 1;
      while i >= 0
        invariant -1 <= i < circles.Length
        invariant forall j :: i < j < circles.Length ==> !Eligible(circles[j], px, py)
        invariant unchanged(this, circles)
      {
        var b := circles[i];
        if Contains(b, px, py) && !b.exploding {
          score := score + (if IsBonus(b.color) then 1 else -1);
          Explode(b, draws);
          circles[i] := b.(exploding := true);
          assert HitIndex(old(circles[..]), px, py) == i;
          return;
        }
        i := i - 1;
      }
    }

    /** The balloon loop of draw: every balloon is updated once, in index order. */
    method UpdateBalloons(noise: seq<real>, resets: seq<BalloonDraw>)
      requires Valid()
      requires |noise| == circles.Length && |resets| == circles.Length
      requires forall i :: 0 <= i < |noise| ==> 0.0 <= noise[i] <= 1.0
      requires forall i :: 0 <= i < |resets| ==> ValidBalloonDraw(resets[i])
      modifies circles
      ensures Valid()
      ensures forall i :: 0 <= i < circles.Length ==>
        circles[i] == Update(old(circles[i]), noise[i], resets[i], width, height)
    {
      for i := 0 to circles.Length
        invariant forall j :: 0 <= j < i ==>
          circles[j] == Update(old(circles[j]), noise[j], resets[j], width, height)
        invariant forall j :: i <= j < circles.Length ==> circles[j] == old(circles[j])
        invariant forall j :: 0 <= j < circles.Length ==> WellFormed(circles[j])
      {
        circles[i] := Update(circles[i], noise[i], resets[i], width, height);
      }
    }

    /** The particle loop of draw: walks the collection from the last index down, updates each
        particle and splices it out when it is dead, leaving exactly Sweep of the old
        collection. */
    method UpdateParticles()
      requires Valid()
      modifies this
      ensures Valid()
      ensures particles == Sweep(old(particles))
      ensures started == old(started) && score == old(score)
      ensures width == old(width) && height == old(height)
    {
      ghost var before := particles;
      SweepKeepsLive(before);
      var i := |particles|;
      while i > 0
        invariant 0 <= i <= |before|
        invariant particles == before[..i] + Sweep(before[i..])
        invariant started == old(started) && score == old(score)
        invariant width == old(width) && height == old(height)
      {
        i := i - 1;
        assert before[..i + 1] == before[..i] + [before[i]];
        assert before[i..] == [before[i]] + before[i + 1..];
        particles := particles[i := Step(particles[i])];
        if IsDead(particles[i]) {
          particles := particles[..i] + particles[i + 1..];
        }
      }
      assert before[..0] == [] && before[0..] == before;
    }

    /** draw: before the first press nothing is updated; afterwards every balloon is updated,
        then the particles are swept. The score and the started flag never change here. */
    method Draw(noise: seq<real>, resets: seq<BalloonDraw>)
      requires Valid()
      requires |noise| == circles.Length && |resets| == circles.Length
      requires forall i :: 0 <= i < |noise| ==> 0.0 <= noise[i] <= 1.0
      requires forall i :: 0 <= i < |resets| ==> ValidBalloonDraw(resets[i])
      modifies this, circles
      ensures Valid()
      ensures started == old(started) && score == old(score)
      ensures width == old(width) && height == old(height)
      ensures !old(started) ==> particles == old(particles) && circles[..] == old(circles[..])
      ensures old(started) ==> particles == Sweep(old(particles))
      ensures old(started) ==> forall i :: 0 <= i < circles.Length ==>
        circles[i] == Update(old(circles[i]), noise[i], resets[i], width, height)
    {
      if !started {
        return;
      }
      UpdateBalloons(noise, resets);
      UpdateParticles();
    }
  }
}
