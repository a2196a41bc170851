/** The scene builder of the ray-tracing pass: a single pass of rejection
    sampling that places spheres on the ground plane so that no two of them
    intersect.

    Unity's global random generator is replaced by an injected sequence of
    draws, one `Draw` per candidate. */
module Scene {
  import opened Geometry

  /** One ray-traced primitive: 3 + 1 + 3 + 3 floats. */
  datatype Sphere = Sphere(position: Vec3, radius: real, albedo: Vec3, specular: Vec3)

  /** Construction-time configuration: `_sphereRadius` (x = minimum, y = maximum),
      `_sphereMax` and `_spherePlacementRadius`. */
  datatype SceneParameters = SceneParameters(
    radiusMin: real,
    radiusMax: real,
    sphereMax: nat,
    placementRadius: real)

  /** The values the pass is constructed with. */
  const DefaultParameters: SceneParameters := SceneParameters(3.0, 8.0, 100, 100.0)

  /** The random values one loop iteration consumes:
      `Random.value` for the radius, `Random.insideUnitCircle` for the placement,
      `Random.ColorHSV()` (its r, g, b) and `Random.value` for the metal coin. */
  datatype Draw = Draw(radiusFraction: real, disc: Vec2, color: Vec3, metalRoll: real)

  /** Base reflectance of a dielectric sphere, `Vector3.one * 0.04f`. */
  const DielectricSpecular: Vec3 := Splat(0.04)

  /** The rejection test: strictly closer than the sum of the radii. */
  predicate Overlaps(candidate: Sphere, other: Sphere)
  {
    var minDist := candidate.radius + other.radius;
    SqrMagnitude(Sub(candidate.position, other.position)) < minDist * minDist
  }

  predicate CollidesWithAny(candidate: Sphere, accepted: seq<Sphere>)
  {
    exists k :: 0 <= k < |accepted| && Overlaps(candidate, accepted[k])
  }

  predicate IsMetal(s: Sphere, color: Vec3)
  {
    s.albedo == Zero && s.specular == color
  }

  predicate IsDielectric(s: Sphere, color: Vec3)
  {
    s.albedo == color && s.specular == DielectricSpecular
  }

  /** No two spheres of the list intersect: every pair is at least as far apart
      as the sum of its radii (touching is allowed). */
  ghost predicate PairwiseSeparated(spheres: seq<Sphere>)
  {
    forall i, j :: 0 <= i < |spheres| && 0 <= j < |spheres| && i != j ==>
      !Overlaps(spheres[i], spheres[j])
  }

  /** The sphere one iteration builds from its draws, before the overlap test
      decides whether it is kept. */
  function Candidate(p: SceneParameters, d: Draw): Sphere
  {
    var radius := p.radiusMin + d.radiusFraction * (p.radiusMax - p.radiusMin);
    var position := Vec3(d.disc.x * p.placementRadius, radius, d.disc.y * p.placementRadius);
    var metal := d.metalRoll < 0.5;
    Sphere(position, radius,
           if metal then Zero else d.color,
           if metal then d.color else DielectricSpecular)
  }

  /** Reference definition of the scene: the spheres accepted from the first
      `n` candidates, in candidate order. A candidate is kept exactly when it
      overlaps none of the spheres kept before it. */
  function Accepted(p: SceneParameters, draws: seq<Draw>, n: nat): seq<Sphere>
    requires n <= |draws|
  {
    if n == 0 then []
    else
      var prev := Accepted(p, draws, n - 1);
      var c := Candidate(p, draws[n - 1]);
      if CollidesWithAny(c, prev) then prev else prev + [c]
  }

  /** Candidate `i` passes the rejection test against the spheres accepted
      from the candidates before it. */
  predicate Kept(p: SceneParameters, draws: seq<Draw>, i: nat)
    requires i < |draws|
  {
    !CollidesWithAny(Candidate(p, draws[i]), Accepted(p, draws, i))
  }

  /** Which candidates were kept: the index of the draw behind each sphere of
      `Accepted(p, draws, n)`. */
  ghost function AcceptedIndices(p: SceneParameters, draws: seq<Draw>, n: nat): seq<nat>
    requires n <= |draws|
  {
    if n == 0 then []
    else
      var prev := AcceptedIndices(p, draws, n - 1);
      if Kept(p, draws, n - 1) then prev + [n - 1] else prev
  }

  // ---------------------------------------------------------------------------
  // The scene builder itself

  /** SetupScene's loop: `p.sphereMax` candidates, each dropped when it overlaps
      a sphere accepted earlier and otherwise given its material and appended. */
  method BuildScene(p: SceneParameters, draws: seq<Draw>) returns (spheres: seq<Sphere>)
    requires |draws| >= p.sphereMax
    ensures spheres == Accepted(p, draws, p.sphereMax)
    ensures |spheres| <= p.sphereMax
    ensures PairwiseSeparated(spheres)
    ensures forall k :: 0 <= k < |spheres| ==> spheres[k].position.y == spheres[k].radius
  {
    spheres := [];
    for i := 0 to p.sphereMax
      invariant spheres == Accepted(p, draws, i)
    {
      var d := draws[i];
      var radius := p.radiusMin + d.radiusFraction * (p.radiusMax - p.radiusMin);
      var disc := Vec2(d.disc.x * p.placementRadius, d.disc.y * p.placementRadius);
      // albedo and specular keep their default value until the sphere is accepted
      var sphere := Sphere(Vec3(disc.x, radius, disc.y), radius, Zero, Zero);
      ghost var c := Candidate(p, d);
      assert radius == c.radius;
      assert sphere.position == c.position && sphere.radius == c.radius;

      var accept := NoOverlap(sphere, spheres);
      CollisionDependsOnlyOnShape(sphere, c, spheres);

      if accept {
        var metal := d.metalRoll < 0.5;
        var albedo := if metal then Zero else d.color;
        var specular := if metal then d.color else DielectricSpecular;
        sphere := sphere.(albedo := albedo, specular := specular);
        spheres := spheres + [sphere];
      }
    }
    AcceptedCount(p, draws, p.sphereMax);
    AcceptedSeparated(p, draws, p.sphereMax);
    AcceptedRestOnGround(p, draws, p.sphereMax);
  }

  /** The inner `foreach` of SetupScene: scans the accepted spheres in order
      and stops at the first one the candidate overlaps (the source's
      `goto SkipSphere`). */
  method NoOverlap(sphere: Sphere, spheres: seq<Sphere>) returns (accept: bool)
    ensures accept <==> !CollidesWithAny(sphere, spheres)
  {
    accept := true;
    var j := 0;
    while j < |spheres| && accept
      invariant 0 <= j <= |spheres|
      invariant accept <==> forall k :: 0 <= k < j ==> !Overlaps(sphere, spheres[k])
    {
      var other := spheres[j];
      var minDist := sphere.radius + other.radius;
      if SqrMagnitude(Sub(sphere.position, other.position)) < minDist * minDist {
        accept := false;
      }
      j := j + 1;
    }
  }

  // ---------------------------------------------------------------------------
  // Properties of the reference definition

  /** At most one sphere per candidate. */
  lemma {:induction false} AcceptedCount(p: SceneParameters, draws: seq<Draw>, n: nat)
    requires n <= |draws|
    ensures |Accepted(p, draws, n)| <= n
  {
    if n > 0 {
      AcceptedCount(p, draws, n - 1);
    }
  }

  /** With `_sphereMax = 0` the scene, and so the buffer, is empty. */
  lemma NoCandidatesNoSpheres(p: SceneParameters, draws: seq<Draw>)
    requires p.sphereMax == 0
    ensures Accepted(p, draws, p.sphereMax) == []
  {
  }

  /** The overlap test gives the same answer whichever sphere is the candidate. */
  lemma OverlapsSymmetric(a: Sphere, b: Sphere)
    ensures Overlaps(a, b) <==> Overlaps(b, a)
  {
    SqrDistanceSymmetric(a.position, b.position);
  }

  /** The overlap test reads only the centres and the radii. */
  lemma CollisionDependsOnlyOnShape(a: Sphere, b: Sphere, accepted: seq<Sphere>)
    requires a.position == b.position && a.radius == b.radius
    ensures CollidesWithAny(a, accepted) <==> CollidesWithAny(b, accepted)
  {
    if CollidesWithAny(a, accepted) {
      var k :| 0 <= k < |accepted| && Overlaps(a, accepted[k]);
      assert Overlaps(b, accepted[k]);
    }
    if CollidesWithAny(b, accepted) {
      var k :| 0 <= k < |accepted| && Overlaps(b, accepted[k]);
      assert Overlaps(a, accepted[k]);
    }
  }

  /** The loop invariant of the source: the accepted spheres never intersect. */
  lemma {:induction false} AcceptedSeparated(p: SceneParameters, draws: seq<Draw>, n: nat)
    requires n <= |draws|
    ensures PairwiseSeparated(Accepted(p, draws, n))
  {
    if n > 0 {
      AcceptedSeparated(p, draws, n - 1);
      var prev := Accepted(p, draws, n - 1);
      var c := Candidate(p, draws[n - 1]);
      if !CollidesWithAny(c, prev) {
        AppendSeparated(prev, c);
      }
    }
  }

  /** Appending a sphere that overlaps none of a separated list keeps it separated. */
  lemma AppendSeparated(prev: seq<Sphere>, c: Sphere)
    requires PairwiseSeparated(prev)
    requires !CollidesWithAny(c, prev)
    ensures PairwiseSeparated(prev + [c])
  {
    var s := prev + [c];
    forall i, j | 0 <= i < |s| && 0 <= j < |s| && i != j
      ensures !Overlaps(s[i], s[j])
    {
      if j == |prev| {
        assert !Overlaps(c, s[i]);
        OverlapsSymmetric(c, s[i]);
      } else if i == |prev| {
        assert !Overlaps(c, s[j]);
      } else {
        assert !Overlaps(prev[i], prev[j]);
      }
    }
  }

  /** Appending never changes earlier entries: a shorter run's scene is a prefix
      of a longer run's; rejected candidates are not retried or backfilled. */
  lemma {:induction false} AcceptedPrefix(p: SceneParameters, draws: seq<Draw>, n: nat, m: nat)
    requires n <= m <= |draws|
    ensures Accepted(p, draws, n) <= Accepted(p, draws, m)
  {
    if n < m {
      AcceptedPrefix(p, draws, n, m - 1);
    }
  }

  /** The scene only depends on the draws of its own candidates. */
  lemma {:induction false} AcceptedUsesOnlyItsDraws(p: SceneParameters, draws: seq<Draw>, other: seq<Draw>, n: nat)
    requires n <= |draws| && n <= |other|
    requires draws[..n] == other[..n]
    ensures Accepted(p, draws, n) == Accepted(p, other, n)
  {
    if n > 0 {
      assert draws[n - 1] == draws[..n][n - 1] == other[..n][n - 1] == other[n - 1];
      assert draws[..n - 1] == draws[..n][..n - 1];
      assert other[..n - 1] == other[..n][..n - 1];
      AcceptedUsesOnlyItsDraws(p, draws, other, n - 1);
    }
  }

  /** The scene is a subsequence of the candidates: sphere `k` is candidate
      `AcceptedIndices(p, draws, n)[k]`. */
  lemma {:induction false} AcceptedIndicesMatch(p: SceneParameters, draws: seq<Draw>, n: nat)
    requires n <= |draws|
    ensures |AcceptedIndices(p, draws, n)| == |Accepted(p, draws, n)|
    ensures forall k :: 0 <= k < |AcceptedIndices(p, draws, n)| ==>
      AcceptedIndices(p, draws, n)[k] < n &&
      Accepted(p, draws, n)[k] == Candidate(p, draws[AcceptedIndices(p, draws, n)[k]])
  {
    if n > 0 {
      AcceptedIndicesMatch(p, draws, n - 1);
    }
  }

  /** Accepted spheres keep candidate order. */
  lemma {:induction false} AcceptedIndicesIncreasing(p: SceneParameters, draws: seq<Draw>, n: nat)
    requires n <= |draws|
    ensures forall k, l :: 0 <= k < l < |AcceptedIndices(p, draws, n)| ==>
      AcceptedIndices(p, draws, n)[k] < AcceptedIndices(p, draws, n)[l]
  {
    if n > 0 {
      AcceptedIndicesIncreasing(p, draws, n - 1);
      AcceptedIndicesMatch(p, draws, n - 1);
    }
  }

  /** Candidate `i` is appended if and only if it overlaps none of the spheres
      accepted from the candidates before it; a rejected candidate never
      enters the scene later. */
  lemma {:induction false} AcceptedIffKept(p: SceneParameters, draws: seq<Draw>, n: nat, i: nat)
    requires i < n <= |draws|
    ensures i in AcceptedIndices(p, draws, n) <==> Kept(p, draws, i)
  {
    if i == n - 1 {
      AcceptedIndicesMatch(p, draws, i);
      assert i !in AcceptedIndices(p, draws, i);
    } else {
      AcceptedIffKept(p, draws, n - 1, i);
    }
  }

  /** Every sphere of the scene is one of the candidates. */
  lemma AcceptedAreCandidates(p: SceneParameters, draws: seq<Draw>, n: nat, k: nat)
    requires n <= |draws|
    requires k < |Accepted(p, draws, n)|
    ensures exists i :: 0 <= i < n && Accepted(p, draws, n)[k] == Candidate(p, draws[i])
  {
    AcceptedIndicesMatch(p, draws, n);
    var i := AcceptedIndices(p, draws, n)[k];
    assert Accepted(p, draws, n)[k] == Candidate(p, draws[i]);
  }

  /** Every sphere rests on the ground plane: its centre is one radius above y = 0. */
  lemma AcceptedRestOnGround(p: SceneParameters, draws: seq<Draw>, n: nat)
    requires n <= |draws|
    ensures forall k :: 0 <= k < |Accepted(p, draws, n)| ==>
      Accepted(p, draws, n)[k].position.y == Accepted(p, draws, n)[k].radius
  {
    forall k | 0 <= k < |Accepted(p, draws, n)|
      ensures Accepted(p, draws, n)[k].position.y == Accepted(p, draws, n)[k].radius
    {
      AcceptedAreCandidates(p, draws, n, k);
    }
  }

  /** A radius drawn with a fraction in [0, 1] lies in [_sphereRadius.x, _sphereRadius.y]. */
  lemma CandidateRadiusInRange(p: SceneParameters, d: Draw)
    requires p.radiusMin <= p.radiusMax
    requires 0.0 <= d.radiusFraction <= 1.0
    ensures p.radiusMin <= Candidate(p, d).radius <= p.radiusMax
  {
    FractionOfWidth(d.radiusFraction, p.radiusMax - p.radiusMin);
  }

  lemma FractionOfWidth(f: real, w: real)
    requires 0.0 <= f <= 1.0 && 0.0 <= w
    ensures 0.0 <= f * w <= w
  {
    assert w - f * w == (1.0 - f) * w;
  }

  /** When every draw's fraction lies in [0, 1], so does every accepted radius
      lie in the configured range. */
  lemma AcceptedRadiiInRange(p: SceneParameters, draws: seq<Draw>, n: nat)
    requires n <= |draws|
    requires p.radiusMin <= p.radiusMax
    requires forall i :: 0 <= i < n ==> 0.0 <= draws[i].radiusFraction <= 1.0
    ensures forall k :: 0 <= k < |Accepted(p, draws, n)| ==>
      p.radiusMin <= Accepted(p, draws, n)[k].radius <= p.radiusMax
  {
    forall k | 0 <= k < |Accepted(p, draws, n)|
      ensures p.radiusMin <= Accepted(p, draws, n)[k].radius <= p.radiusMax
    {
      AcceptedAreCandidates(p, draws, n, k);
      var i :| 0 <= i < n && Accepted(p, draws, n)[k] == Candidate(p, draws[i]);
      CandidateRadiusInRange(p, draws[i]);
    }
  }

  /** A point of the unit disc, scaled by `_spherePlacementRadius`, lies within
      that radius of the origin in the ground plane. */
  lemma CandidateInPlacementDisc(p: SceneParameters, d: Draw)
    requires p.placementRadius >= 0.0
    requires d.disc.x * d.disc.x + d.disc.y * d.disc.y <= 1.0
    ensures var c := Candidate(p, d).position;
      c.x * c.x + c.z * c.z <= p.placementRadius * p.placementRadius
  {
    var R := p.placementRadius;
    var c := Candidate(p, d).position;
    var s := d.disc.x * d.disc.x + d.disc.y * d.disc.y;
    assert c.x * c.x + c.z * c.z == s * (R * R);
    assert R * R >= 0.0;
    assert s * (R * R) <= 1.0 * (R * R);
  }

  /** Each sphere is exactly one of two kinds, chosen by its metal coin:
      metal (no albedo, specular = colour) or dielectric (albedo = colour,
      specular 0.04). */
  lemma CandidateMaterial(p: SceneParameters, d: Draw)
    ensures IsMetal(Candidate(p, d), d.color) <==> d.metalRoll < 0.5
    ensures IsDielectric(Candidate(p, d), d.color) <==> !(d.metalRoll < 0.5)
  {
  }

  /** Material classification of the whole scene, against the draw each sphere
      came from. */
  lemma AcceptedMaterials(p: SceneParameters, draws: seq<Draw>, n: nat)
    requires n <= |draws|
    ensures var s := Accepted(p, draws, n);
      var idx := AcceptedIndices(p, draws, n);
      |idx| == |s| &&
      forall k :: 0 <= k < |s| ==>
        idx[k] < n &&
        (IsMetal(s[k], draws[idx[k]].color) <==> draws[idx[k]].metalRoll < 0.5) &&
        (IsDielectric(s[k], draws[idx[k]].color) <==> !(draws[idx[k]].metalRoll < 0.5))
  {
    AcceptedIndicesMatch(p, draws, n);
    var idx := AcceptedIndices(p, draws, n);
    forall k | 0 <= k < |idx|
      ensures IsMetal(Candidate(p, draws[idx[k]]), draws[idx[k]].color) <==> draws[idx[k]].metalRoll < 0.5
      ensures IsDielectric(Candidate(p, draws[idx[k]]), draws[idx[k]].color) <==> !(draws[idx[k]].metalRoll < 0.5)
    {
      CandidateMaterial(p, draws[idx[k]]);
    }
  }

  /** Spheres that exactly touch are both kept: the rejection test is strict,
      so a candidate touching every accepted sphere is not rejected. */
  lemma TouchingIsNoCollision(c: Sphere, accepted: seq<Sphere>)
    requires forall k :: 0 <= k < |accepted| ==>
      SqrMagnitude(Sub(c.position, accepted[k].position))
        == (c.radius + accepted[k].radius) * (c.radius + accepted[k].radius)
    ensures !CollidesWithAny(c, accepted)
  {
    forall k | 0 <= k < |accepted|
      ensures !Overlaps(c, accepted[k])
    {
      var o := accepted[k];
      assert SqrMagnitude(Sub(c.position, o.position)) == (c.radius + o.radius) * (c.radius + o.radius);
    }
  }

  /** With placement radius 0, a single radius of 5 and one candidate, the scene
      is exactly one sphere centred at (0, 5, 0), whatever the draws. */
  lemma SingleSphereAtOrigin(draws: seq<Draw>)
    requires |draws| >= 1
    ensures var p := SceneParameters(5.0, 5.0, 1, 0.0);
      |Accepted(p, draws, p.sphereMax)| == 1 &&
      Accepted(p, draws, p.sphereMax)[0].position == Vec3(0.0, 5.0, 0.0) &&
      Accepted(p, draws, p.sphereMax)[0].radius == 5.0
  {
    var p := SceneParameters(5.0, 5.0, 1, 0.0);
    assert Accepted(p, draws, 0) == [];
    assert !CollidesWithAny(Candidate(p, draws[0]), []);
  }
}
