/** The ray-tracing render pass: it builds and uploads the scene once, when
    constructed; on camera setup it records the viewport size and the
    kernel's thread-group size; every frame it dispatches the kernel over
    the viewport. */
module RayTracing {
  import opened Scene
  import opened Packing
  import opened Dispatch

  /** The part of the camera target descriptor the pass reads. */
  datatype TargetDescriptor = TargetDescriptor(width: nat, height: nat)

  /** What `FindKernel("CSMain")` and `GetKernelThreadGroupSizes` report. */
  datatype Kernel = Kernel(id: int, threadGroupX: nat, threadGroupY: nat)

  /** The compute dispatch a frame records: which kernel, which sphere buffer
      is bound as `_Spheres`, and how many thread groups. */
  datatype DispatchCall = DispatchCall(kernelId: int, spheres: ComputeBuffer, groups: ThreadGroups)

  class RayTracingPass {
    const parameters: SceneParameters
    var sphereBuffer: ComputeBuffer

    var width: nat
    var height: nat
    var xGroupSize: nat
    var yGroupSize: nat
    var kernelId: int

    /** The pass has been through camera setup with a kernel that declares a
        thread-group size. */
    predicate CameraReady()
      reads this
    {
      xGroupSize > 0 && yGroupSize > 0
    }

    /** The uploaded scene obeys the builder's guarantees. */
    ghost predicate SceneValid()
      reads this
    {
      sphereBuffer.stride == SphereStride &&
      |sphereBuffer.data| % FloatsPerSphere == 0 &&
      sphereBuffer.count == |Unflatten(sphereBuffer.data)| <= parameters.sphereMax &&
      PairwiseSeparated(Unflatten(sphereBuffer.data))
    }

    /** Constructed with the built-in scene parameters; builds the scene at once. */
    constructor (draws: seq<Draw>)
      requires |draws| >= DefaultParameters.sphereMax
      ensures parameters == DefaultParameters
      ensures sphereBuffer == Upload(Accepted(parameters, draws, parameters.sphereMax))
      ensures SceneValid() && !CameraReady()
    {
      parameters := DefaultParameters;
      width, height, xGroupSize, yGroupSize, kernelId := 0, 0, 0, 0, 0;
      new;
      SetupScene(draws);
    }

    /** Builds the scene from the draws and uploads it, replacing the buffer. */
    method SetupScene(draws: seq<Draw>)
      requires |draws| >= parameters.sphereMax
      modifies this`sphereBuffer
      ensures sphereBuffer == Upload(Accepted(parameters, draws, parameters.sphereMax))
      ensures SceneValid()
    {
      var spheres := BuildScene(parameters, draws);
      sphereBuffer := Upload(spheres);
    }

    /** Records the viewport size and the kernel; the result depends on the
        arguments only, not on an earlier setup. */
    method OnCameraSetup(target: TargetDescriptor, kernel: Kernel)
      requires kernel.threadGroupX > 0 && kernel.threadGroupY > 0
      modifies this`width, this`height, this`xGroupSize, this`yGroupSize, this`kernelId
      ensures width == target.width && height == target.height
      ensures xGroupSize == kernel.threadGroupX && yGroupSize == kernel.threadGroupY
      ensures kernelId == kernel.id
      ensures CameraReady()
      ensures sphereBuffer == old(sphereBuffer) && SceneValid() == old(SceneValid())
    {
      kernelId := kernel.id;
      xGroupSize, yGroupSize := kernel.threadGroupX, kernel.threadGroupY;
      width := target.width;
      height := target.height;
    }

    /** One frame's dispatch: the whole-group grid over the recorded viewport,
        with the scene buffer bound. */
    method Execute() returns (call: DispatchCall)
      requires CameraReady()
      ensures call.kernelId == kernelId && call.spheres == sphereBuffer
      ensures call.groups == DispatchSize(width, height, xGroupSize, yGroupSize)
      ensures call.groups.z == 1
      ensures xGroupSize * call.groups.x <= width < xGroupSize * (call.groups.x + 1)
      ensures yGroupSize * call.groups.y <= height < yGroupSize * (call.groups.y + 1)
      ensures SceneValid() ==>
        call.spheres.count <= parameters.sphereMax &&
        PairwiseSeparated(Unflatten(call.spheres.data))
    {
      var groupsX := width / xGroupSize;
      var groupsY := height / yGroupSize;
      call := DispatchCall(kernelId, sphereBuffer, ThreadGroups(groupsX, groupsY, 1));
    }
  }

  /** Camera setup is idempotent: running it twice with the same descriptor and
      kernel leads to the same dispatch. */
  method SetupTwice(pass: RayTracingPass, target: TargetDescriptor, kernel: Kernel)
      returns (first: DispatchCall, second: DispatchCall)
    requires kernel.threadGroupX > 0 && kernel.threadGroupY > 0
    modifies pass
    ensures first == second
    ensures first.groups == DispatchSize(target.width, target.height, kernel.threadGroupX, kernel.threadGroupY)
  {
    pass.OnCameraSetup(target, kernel);
    first := pass.Execute();
    pass.OnCameraSetup(target, kernel);
    second := pass.Execute();
  }
}
