/** The GPU buffer the scene is uploaded into: `new ComputeBuffer(count, 40)`
    followed by `SetData(spheres)`. Each sphere is packed as ten consecutive
    floats: position (3), radius (1), albedo (3), specular (3). */
module Packing {
  import opened Geometry
  import opened Scene

  const FloatsPerSphere: nat := 10
  const BytesPerFloat: nat := 4
  /** The stride passed to the ComputeBuffer constructor. */
  const SphereStride: nat := 40

  /** The ten floats of one record, in field order. */
  function SphereFloats(s: Sphere): (r: seq<real>)
    ensures |r| == FloatsPerSphere && |r| * BytesPerFloat == SphereStride
    ensures SphereFromFloats(r) == s
  {
    [s.position.x, s.position.y, s.position.z,
     s.radius,
     s.albedo.x, s.albedo.y, s.albedo.z,
     s.specular.x, s.specular.y, s.specular.z]
  }

  /** How the compute kernel reads one record back. */
  function SphereFromFloats(f: seq<real>): Sphere
    requires |f| == FloatsPerSphere
  {
    Sphere(Vec3(f[0], f[1], f[2]), f[3], Vec3(f[4], f[5], f[6]), Vec3(f[7], f[8], f[9]))
  }

  /** The buffer contents: the records one after another. */
  function Flatten(spheres: seq<Sphere>): (r: seq<real>)
    ensures |r| == FloatsPerSphere * |spheres|
  {
    if spheres == [] then [] else SphereFloats(spheres[0]) + Flatten(spheres[1..])
  }

  /** The kernel's view of the buffer: one sphere per ten floats. */
  function Unflatten(f: seq<real>): seq<Sphere>
    requires |f| % FloatsPerSphere == 0
    decreases |f|
  {
    if |f| == 0 then []
    else [SphereFromFloats(f[..FloatsPerSphere])] + Unflatten(f[FloatsPerSphere..])
  }

  /** What the kernel reads back is exactly the list that was uploaded. */
  lemma {:induction false} UnflattenFlatten(spheres: seq<Sphere>)
    ensures |Flatten(spheres)| % FloatsPerSphere == 0
    ensures Unflatten(Flatten(spheres)) == spheres
  {
    if spheres != [] {
      var head := SphereFloats(spheres[0]);
      var rest := Flatten(spheres[1..]);
      UnflattenFlatten(spheres[1..]);
      assert (head + rest)[..FloatsPerSphere] == head;
      assert (head + rest)[FloatsPerSphere..] == rest;
    }
  }

  /** A structured buffer as this pass uses it: element count, stride in bytes,
      and the packed contents. */
  datatype ComputeBuffer = ComputeBuffer(count: nat, stride: nat, data: seq<real>)

  /** `new ComputeBuffer(spheres.Count, 40)` then `SetData(spheres)`. */
  function Upload(spheres: seq<Sphere>): (b: ComputeBuffer)
    ensures b.count == |spheres| && b.stride == SphereStride
    ensures |b.data| * BytesPerFloat == b.count * b.stride
    ensures |b.data| % FloatsPerSphere == 0 && Unflatten(b.data) == spheres
  {
    UnflattenFlatten(spheres);
    ComputeBuffer(|spheres|, SphereStride, Flatten(spheres))
  }
}
