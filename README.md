# Ray-tracing pass: scene builder and dispatch grid

A Dafny model of the core of a Unity render pass that ray-traces a scene of
spheres in a compute shader. The model covers:

- **The scene builder.** It runs a single pass of rejection sampling over
  `_sphereMax` candidates.
  - Each candidate gets a radius drawn from `[_sphereRadius.x, _sphereRadius.y]`.
  - Its centre is a point of a disc of radius `_spherePlacementRadius`, lifted
    to `y = radius` so that the sphere rests on the ground plane.
  - A candidate is dropped when it is strictly closer to an accepted sphere than
    the sum of their radii. It is never retried.
  - A kept candidate becomes metal (no albedo, specular = colour) or dielectric
    (albedo = colour, specular 0.04), and is appended to the list.
  - The list is uploaded into a structured buffer with `spheres.Count` elements
    of 40 bytes each.
- **The dispatch grid.** The pass records the viewport size and the kernel's
  thread-group size on camera setup. Each frame it dispatches
  `(width / xGroupSize, height / yGroupSize, 1)` groups, and the division
  truncates.

Modules:

- `Geometry` (geometry.dfy): the vectors.
- `Scene` (scene.dfy): the builder.
  - `BuildScene` is the loop.
  - `Accepted` is its reference definition.
  - The lemmas state its guarantees.
- `Packing` (buffer.dfy): the buffer layout and its round trip.
- `Dispatch` (dispatch.dfy): the group arithmetic.
- `RayTracing` (pass.dfy): the pass object.
  - Its fields are the ones `SetupScene` and `OnCameraSetup` write.
  - Its `Execute` returns the dispatch call a frame records.

Unity's random generator is replaced by an injected sequence of draws, one
`Draw` per candidate: the radius fraction, the unit-disc point, the colour and
the metal coin. Floats are modelled as `real`, and sizes as `nat`.

## Model

| member | source | states |
|---|---|---|
| `Geometry.Sub` | Assets/Scripts/RayTracingPass.cs:80 | the difference of two centres, added back to the second, gives the first |
| `Geometry.SqrMagnitude` | Assets/Scripts/RayTracingPass.cs:80 | a squared length is never negative |
| `Geometry.SqrDistanceSymmetric` | Assets/Scripts/RayTracingPass.cs:80 | the squared distance between two centres does not depend on their order |
| `Scene.BuildScene` | Assets/Scripts/RayTracingPass.cs:64-96 | the loop yields exactly the reference scene `Accepted`; it has at most `_sphereMax` spheres, no two of them intersect, and each rests on the ground plane |
| `Scene.NoOverlap` | Assets/Scripts/RayTracingPass.cs:77-82 | the early-exit scan accepts exactly when the candidate overlaps no accepted sphere |
| `Scene.CollisionDependsOnlyOnShape` | Assets/Scripts/RayTracingPass.cs:69-82 | the rejection test reads only centre and radius, so testing before choosing the material decides the same |
| `Scene.AcceptedCount` | Assets/Scripts/RayTracingPass.cs:67-91 | at most one sphere is added per candidate, so the count never exceeds the number of candidates |
| `Scene.NoCandidatesNoSpheres` | Assets/Scripts/RayTracingPass.cs:64-97 | with `_sphereMax = 0` the scene, and so the buffer count, is empty |
| `Scene.OverlapsSymmetric` | Assets/Scripts/RayTracingPass.cs:79-80 | the overlap test gives the same answer with the roles of candidate and accepted sphere swapped |
| `Scene.AppendSeparated` | Assets/Scripts/RayTracingPass.cs:77-91 | appending a sphere that overlaps none of a non-intersecting list keeps the list non-intersecting |
| `Scene.AcceptedSeparated` | Assets/Scripts/RayTracingPass.cs:77-91 | every pair of accepted spheres is at least as far apart as the sum of its radii (touching allowed) |
| `Scene.AcceptedPrefix` | Assets/Scripts/RayTracingPass.cs:66-94 | the scene after fewer candidates is a prefix of the scene after more: appending never changes earlier entries, and nothing is backfilled |
| `Scene.AcceptedUsesOnlyItsDraws` | Assets/Scripts/RayTracingPass.cs:67-75 | the scene depends only on the draws of its own candidates, so the same draws give the same scene |
| `Scene.AcceptedIndicesMatch` | Assets/Scripts/RayTracingPass.cs:66-91 | each accepted sphere is the candidate built from a draw before the bound, and there is one such draw per sphere |
| `Scene.AcceptedIndicesIncreasing` | Assets/Scripts/RayTracingPass.cs:67-91 | accepted spheres keep candidate order, so the scene is a subsequence of the candidates |
| `Scene.AcceptedIffKept` | Assets/Scripts/RayTracingPass.cs:77-94 | candidate `i` is in the scene if and only if it overlaps none of the spheres accepted before it |
| `Scene.AcceptedAreCandidates` | Assets/Scripts/RayTracingPass.cs:69-91 | every sphere of the scene is one of the candidates |
| `Scene.AcceptedRestOnGround` | Assets/Scripts/RayTracingPass.cs:75 | every accepted sphere has `position.y == radius` |
| `Scene.CandidateRadiusInRange` | Assets/Scripts/RayTracingPass.cs:71 | a radius drawn with a fraction in [0, 1] lies in `[_sphereRadius.x, _sphereRadius.y]` |
| `Scene.AcceptedRadiiInRange` | Assets/Scripts/RayTracingPass.cs:71 | when all fractions lie in [0, 1], every accepted radius lies in the configured range |
| `Scene.CandidateInPlacementDisc` | Assets/Scripts/RayTracingPass.cs:74 | a unit-disc point scaled by `_spherePlacementRadius` lies within that radius of the origin in the ground plane |
| `Scene.CandidateMaterial` | Assets/Scripts/RayTracingPass.cs:85-89 | a sphere is metal exactly when its coin is below 0.5 and dielectric exactly when it is not, so it is never both |
| `Scene.AcceptedMaterials` | Assets/Scripts/RayTracingPass.cs:84-91 | every sphere of the scene is metal or dielectric, never both, as its own draw decides |
| `Scene.TouchingIsNoCollision` | Assets/Scripts/RayTracingPass.cs:79-81 | a candidate that exactly touches the accepted spheres is not rejected, because the test is strict |
| `Scene.SingleSphereAtOrigin` | Assets/Scripts/RayTracingPass.cs:67-75 | with placement radius 0, radius range [5, 5] and one candidate, the scene is one sphere of radius 5 at (0, 5, 0), whatever the draws |
| `Packing.SphereFloats` | Assets/Scripts/RayTracingPass.cs:11-17 | a record is 10 floats, 40 bytes (the buffer stride), and reads back as the same sphere |
| `Packing.Flatten` | Assets/Scripts/RayTracingPass.cs:97-98 | the uploaded data holds 10 floats per sphere |
| `Packing.UnflattenFlatten` | Assets/Scripts/RayTracingPass.cs:97-98 | reading the buffer back record by record gives exactly the uploaded list |
| `Packing.Upload` | Assets/Scripts/RayTracingPass.cs:97-98 | the buffer holds `spheres.Count` elements of stride 40, its bytes are count times stride, and its contents read back as the list |
| `Dispatch.WholeGroups` | Assets/Scripts/RayTracingPass.cs:138 | the truncated quotient is the number of whole groups that fit in the extent |
| `Dispatch.DispatchSize` | Assets/Scripts/RayTracingPass.cs:138 | the grid's depth is 1; in each direction the groups cover at most the extent, and one more group would exceed it |
| `Dispatch.UncoveredStrip` | Assets/Scripts/RayTracingPass.cs:138 | the undispatched strip is `extent % groupSize`, narrower than one group, and empty exactly when the extent is a multiple of the group size |
| `Dispatch.GroupCountUnique` | Assets/Scripts/RayTracingPass.cs:138 | only one group count meets the bounds that `DispatchSize` guarantees |
| `Dispatch.DispatchSizeUnique` | Assets/Scripts/RayTracingPass.cs:138 | any group counts that meet those bounds are the truncating quotients |
| `Dispatch.ColumnDispatched` | Assets/Scripts/RayTracingPass.cs:138 | a pixel column belongs to a dispatched group exactly when it lies outside the uncovered strip |
| `RayTracing.RayTracingPass.constructor` | Assets/Scripts/RayTracingPass.cs:47-62 | construction uses the built-in parameters (3, 8, 100, 100) and uploads the built scene; no camera setup has happened yet |
| `RayTracing.RayTracingPass.SetupScene` | Assets/Scripts/RayTracingPass.cs:64-99 | the buffer becomes the upload of the reference scene, with at most `_sphereMax` non-intersecting spheres |
| `RayTracing.RayTracingPass.OnCameraSetup` | Assets/Scripts/RayTracingPass.cs:101-122 | the viewport size, the kernel and its group size are recorded from the arguments alone; no earlier state is read; the sphere buffer and its validity are untouched |
| `RayTracing.RayTracingPass.Execute` | Assets/Scripts/RayTracingPass.cs:124-147 | the frame dispatches the recorded kernel with the sphere buffer bound, over `DispatchSize` of the recorded viewport; a valid scene's bound buffer holds at most `_sphereMax` pairwise non-intersecting spheres |
| `RayTracing.SetupTwice` | Assets/Scripts/RayTracingPass.cs:101-139 | running camera setup twice with the same descriptor and kernel yields the same dispatch |

## Left out

- `Scene.BuildScene`: takes one `Draw` per candidate.
  - Unity draws the colour and the metal coin only after a candidate passes the overlap test.
  - Draws are arbitrary inputs, so every run of the real generator has a draw sequence that gives the same scene.
  - The exact order in which a seeded generator is consumed is not modelled.
- Unity's `Random` (`value`, `insideUnitCircle`, `ColorHSV`) is not modelled. Its outputs are inputs to the model, and so is the per-frame `PixelOffset` jitter.
- IEEE single-precision arithmetic is not modelled. Geometry is over `real`, so the overlap test is exact.
  - `0.04f` is taken as the real 0.04.
  - `0.5f` is taken as the real 0.5.
- Integer widths are not modelled.
  - `_sphereMax` is a `uint` and the loop counter an `int`.
  - The viewport size is an `int`, and `(int)` casts the `uint` group sizes.
  - The model uses `nat` for all of them. At realistic sizes no wrap-around occurs.
- `Dispatch.DispatchSize`: requires non-zero group sizes. The source would throw on a zero divisor, and a compute kernel always declares at least one thread per group. `RayTracingPass.Execute` requires a prior camera setup for the same reason.
- Command-buffer work is not modelled, because it is engine I/O with no logic of its own. This covers:
  - `GetTemporaryRT` / `ReleaseTemporaryRT` (camera setup and `OnCameraCleanup`)
  - the `SetCompute*Param` bindings beyond the sphere buffer
  - the GPU side of `DispatchCompute`
  - `Blit`, `ExecuteCommandBuffer` and `CommandBufferPool`
- The final `Blit` is outside the model. Its source argument is `_CustomRenderBuffer` (Assets/Scripts/RayTracingPass.cs:113, 141), not the `"Result"` target the kernel writes (Assets/Scripts/RayTracingPass.cs:108-110, 137).
- GPU resource management is not modelled: `ComputeBuffer` allocation, `SetData` as a GPU transfer, and `Dispose` / `Release`. The buffer is recorded by its element count, its stride and its packed contents.
- Camera matrices, the inverse projection and the light vector are not modelled. They pass through to the shader unchanged.
- The null-shader guard in Assets/Scripts/RayTracingFeature.cs is not modelled. That file only wires the pass into the engine.
- The compute shader is not part of this model.
