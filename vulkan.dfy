/**
 * The Vulkan backend's device, command list and pipeline
 * (taichi/backends/vulkan/vulkan_device.cpp). Native Vulkan and allocator
 * calls are not executed: a `NativeDriver` hands out fresh handles and
 * records every call in a log, so contracts can say which calls an
 * operation makes and in what order.
 */
module Vulkan {
  import opened Wrappers
  import opened VkTypes
  import opened VkBinder

  // ---------------------------------------------------------------------------
  // Native calls

  /** The allocator's memory usage classes, as `allocate_memory` chooses them. */
  datatype MemoryUsage =
    | HostVisibleRequired  // required HOST_VISIBLE, preferred DEVICE_LOCAL | HOST_CACHED
    | GpuToCpu
    | CpuToGpu
    | GpuOnly

  datatype BindPoint = ComputeBindPoint | GraphicsBindPoint

  datatype LoadOp = LoadOpLoad | LoadOpClear

  datatype ImageLayout = ColorAttachmentOptimal | DepthAttachmentOptimal

  /** One `VkAttachmentDescription`: format, load operation and final layout (the other fields are constants). */
  datatype AttachmentDescription = AttachmentDescription(format: VkFormat, loadOp: LoadOp, finalLayout: ImageLayout)

  /** The attachment references of a `VkSubpassDescription`. */
  datatype SubpassInfo = SubpassInfo(
    colorRefs: seq<nat>,           // the `attachment` index of each colour reference
    depthRef: Option<nat>)         // the depth reference, when there is a depth attachment

  /**
   * The content of a `VkRenderPassCreateInfo`: the attachments, the subpass
   * count, and the subpass array, `None` for a null pointer.
   */
  datatype RenderPassInfo = RenderPassInfo(
    attachments: seq<AttachmentDescription>,
    subpassCount: nat,
    subpasses: Option<seq<SubpassInfo>>)

  /** What a native creation call creates. */
  datatype ObjectInfo =
    | BufferObject(size: U64, usage: MemoryUsage)
    | HostMapping(buffer: Handle, offset: U64, size: U64)
    | CommandBufferObject
    | FenceObject
    | RenderPassObject(info: RenderPassInfo)
    | FramebufferObject(desc: FramebufferDesc)
    | DescriptorSetLayoutObject(bindings: SetLayout)
    | DescriptorPoolObject(maxSets: nat, uniformBuffers: nat, storageBuffers: nat)
    | DescriptorSetObject(pool: Handle, layout: Handle)
    | PipelineLayoutObject(setLayouts: seq<Handle>)
    | ComputePipelineObject(layout: Handle)
    | GraphicsPipelineObject(renderpass: Handle, colorAttachments: nat)

  /** A native call, with the handles and values it is passed. */
  datatype NativeCall =
    | Created(obj: ObjectInfo, handle: Handle)
    | DestroyBuffer(buffer: Handle)
    | UnmapMemory(buffer: Handle)
    | BeginCommandBuffer(cb: Handle)
    | EndCommandBuffer(cb: Handle)
    | QueueSubmit(cb: Handle, fence: Handle)
    | WaitForFences(fences: seq<Handle>)
    | DestroyFence(fence: Handle)
    | UpdateDescriptorSets(update: DescriptorUpdate)
    | CmdBindPipeline(cb: Handle, point: BindPoint, pipeline: Handle)
    | CmdSetViewport(cb: Handle, width: U32, height: U32)
    | CmdSetScissor(cb: Handle, width: U32, height: U32)
    | CmdSetLineWidth(cb: Handle)
    | CmdBindDescriptorSets(cb: Handle, point: BindPoint, layout: Handle, firstSet: nat, descSet: Handle)
    | CmdBeginRenderPass(cb: Handle, renderpass: Handle, framebuffer: Handle, x: int, y: int, width: U32, height: U32, clearValues: nat)
    | CmdEndRenderPass(cb: Handle)
    | DestroyPipeline(pipeline: Handle)
    | DestroyPipelineLayout(layout: Handle)

  /** The Vulkan driver and allocator: creation calls return fresh non-null handles, every call is logged. */
  class NativeDriver {
    var next: nat
    var log: seq<NativeCall>

    constructor ()
      ensures next == 0 && log == []
    {
      next := 0;
      log := [];
    }

    method Create(obj: ObjectInfo) returns (h: Handle)
      modifies this
      ensures h == old(next) + 1 && next == h
      ensures log == old(log) + [Created(obj, h)]
    {
      next := next + 1;
      h := next;
      log := log + [Created(obj, h)];
    }

    method Call(c: NativeCall)
      modifies this
      ensures next == old(next) && log == old(log) + [c]
    {
      log := log + [c];
    }
  }

  // ---------------------------------------------------------------------------
  // Device state as values

  /** The device's fields other than its layout cache and descriptor pools, as one value. */
  datatype DeviceRest = DeviceRest(
    allocCnt: nat, allocations: map<nat, AllocationInternal>, imageAllocations: map<nat, ImageAllocation>,
    freeCmdBuffers: seq<Handle>, inFlightCmdLists: map<Handle, Handle>, deallocCmdLists: seq<Handle>,
    inFlightDescSets: set<Handle>, deallocDescSets: seq<(Handle, Handle)>,
    renderpassPools: map<RenderPassDesc, Handle>, framebufferPools: map<FramebufferDesc, Handle>)

  /** `AllocationInternal`: the buffer, its size and usage, and the host pointer it is mapped at (0 when unmapped). */
  datatype AllocationInternal = AllocationInternal(buffer: Handle, size: U64, usage: MemoryUsage, mapped: Handle)

  /** `ImageAllocInternal` of an imported image. */
  datatype ImageAllocation = ImageAllocation(image: Handle, view: Handle, format: VkFormat)

  /** `DescPool`: a descriptor pool and the sets it can hand out again. */
  datatype DescPool = DescPool(pool: Handle, freeSets: seq<Handle>)

  datatype DeviceError =
    | UnknownAlloc          // `allocations_.at` / `image_allocations_.at` throws
    | AlreadyMapped         // "Memory can not be mapped multiple times"
    | NotMapped             // "Memory is not mapped"
    | UnknownLayout         // `desc_set_pools_.at` throws
    | UnsupportedSource     // `create_pipeline` accepts only SPIR-V compute shaders
    | BinderFailed(e: BinderError)

  /**
   * `PipelineSourceDesc`: whether the code is a SPIR-V binary, whether it is
   * a compute stage, and the descriptor sets reflection reports for it.
   */
  datatype PipelineSource = PipelineSource(isSpirvBinary: bool, isComputeStage: bool, reflection: seq<ReflectedSet>)

  /** The usage `allocate_memory` chooses for the requested host access. */
  function UsageFor(hostRead: bool, hostWrite: bool): MemoryUsage
  {
    if hostRead && hostWrite then HostVisibleRequired
    else if hostRead then GpuToCpu
    else if hostWrite then CpuToGpu
    else GpuOnly
  }

  /** The host access each usage class grants. */
  predicate HostReadable(u: MemoryUsage)
  {
    u == HostVisibleRequired || u == GpuToCpu
  }

  predicate HostWritable(u: MemoryUsage)
  {
    u == HostVisibleRequired || u == CpuToGpu
  }

  /** The chosen usage grants exactly the requested host access. */
  lemma UsageGrantsRequestedAccess(hostRead: bool, hostWrite: bool)
    ensures HostReadable(UsageFor(hostRead, hostWrite)) == hostRead
    ensures HostWritable(UsageFor(hostRead, hostWrite)) == hostWrite
  {
  }

  /** `map` / `map_range` on the allocation table: the allocation must exist and be unmapped. */
  function MapIn(allocs: map<nat, AllocationInternal>, id: nat, host: Handle): Result<map<nat, AllocationInternal>, DeviceError>
  {
    if id !in allocs then Err(UnknownAlloc)
    else if allocs[id].mapped != 0 then Err(AlreadyMapped)
    else Ok(allocs[id := allocs[id].(mapped := host)])
  }

  /** `unmap` on the allocation table: the allocation must exist and be mapped. */
  function UnmapIn(allocs: map<nat, AllocationInternal>, id: nat): Result<map<nat, AllocationInternal>, DeviceError>
  {
    if id !in allocs then Err(UnknownAlloc)
    else if allocs[id].mapped == 0 then Err(NotMapped)
    else Ok(allocs[id := allocs[id].(mapped := 0)])
  }

  /** Unmapping what was just mapped restores the table. */
  lemma {:induction false} UnmapUndoesMap(allocs: map<nat, AllocationInternal>, id: nat, host: Handle)
    requires host != 0
    ensures MapIn(allocs, id, host).Ok? <==> id in allocs && allocs[id].mapped == 0
    ensures MapIn(allocs, id, host).Ok? ==> UnmapIn(MapIn(allocs, id, host).value, id) == Ok(allocs)
  {
    if MapIn(allocs, id, host).Ok? {
      var mapped := MapIn(allocs, id, host).value;
      assert mapped[id := mapped[id].(mapped := 0)] == allocs;
    }
  }

  /** A mapped allocation cannot be mapped again, and an unmapped one cannot be unmapped again. */
  lemma NoDoubleMapOrUnmap(allocs: map<nat, AllocationInternal>, id: nat, host: Handle, host': Handle)
    requires host != 0
    ensures MapIn(allocs, id, host).Ok? ==> MapIn(MapIn(allocs, id, host).value, id, host') == Err(AlreadyMapped)
    ensures UnmapIn(allocs, id).Ok? ==> UnmapIn(UnmapIn(allocs, id).value, id) == Err(NotMapped)
    ensures MapIn(allocs, id, host).Err? || UnmapIn(allocs, id).Err?
  {
  }

  /** Taking the last element of a free list. */
  function PopBack(xs: seq<Handle>): (Option<Handle>, seq<Handle>)
  {
    if |xs| == 0 then (None, xs) else (Some(xs[|xs| - 1]), xs[..|xs| - 1])
  }

  /** The free list of the pool for layout `l`; a layout without a pool has none. */
  function FreeSets(pools: map<Handle, DescPool>, l: Handle): seq<Handle>
  {
    if l in pools then pools[l].freeSets else []
  }

  /** Free lists are stacks: what was pushed last is handed out next. */
  lemma PopBackAfterPush(xs: seq<Handle>, x: Handle)
    ensures PopBack(xs + [x]) == (Some(x), xs)
  {
    assert (xs + [x])[..|xs|] == xs;
  }

  /** Handing out from a free list and returning the same handle restores it. */
  lemma PushAfterPopBack(xs: seq<Handle>)
    requires |xs| > 0
    ensures PopBack(xs).0.Some? && PopBack(xs).1 + [PopBack(xs).0.value] == xs
  {
  }

  /** The descriptor pools after the first n (layout, set) pairs are returned to their pools' free lists. */
  function ReturnSets(pools: map<Handle, DescPool>, deferred: seq<(Handle, Handle)>, n: nat): map<Handle, DescPool>
    requires n <= |deferred|
  {
    if n == 0 then pools
    else
      var prev := ReturnSets(pools, deferred, n - 1);
      var (layout, descSet) := deferred[n - 1];
      if layout in prev then prev[layout := prev[layout].(freeSets := prev[layout].freeSets + [descSet])] else prev
  }

  /** Returning sets creates and removes no pool, and changes no pool handle. */
  lemma {:induction false} ReturnSetsKeepsPools(pools: map<Handle, DescPool>, deferred: seq<(Handle, Handle)>, n: nat)
    requires n <= |deferred|
    ensures ReturnSets(pools, deferred, n).Keys == pools.Keys
    ensures forall l :: l in pools ==> ReturnSets(pools, deferred, n)[l].pool == pools[l].pool
    ensures forall l :: l in pools ==> |ReturnSets(pools, deferred, n)[l].freeSets| >= |pools[l].freeSets|
  {
    if n > 0 {
      ReturnSetsKeepsPools(pools, deferred, n - 1);
    }
  }

  /**
   * What `command_sync` does to the command-buffer lists: the deferred
   * buffers join the free list, and the deferred list is kept.
   */
  function SyncRecycle(free: seq<Handle>, deferred: seq<Handle>): (seq<Handle>, seq<Handle>)
  {
    (free + deferred, deferred)
  }

  /**
   * Because the deferred list is never emptied, each synchronisation adds
   * every deferred buffer to the free list once more: after two, a deferred
   * buffer is on the free list twice and may back two command lists at once.
   */
  lemma {:induction false} SyncRecycleRepeats(free: seq<Handle>, deferred: seq<Handle>, b: Handle)
    ensures var (free1, deferred1) := SyncRecycle(free, deferred);
      var (free2, deferred2) := SyncRecycle(free1, deferred1);
      deferred2 == deferred && multiset(free2)[b] == multiset(free)[b] + 2 * multiset(deferred)[b]
  {
    var (free1, deferred1) := SyncRecycle(free, deferred);
    assert multiset(free1) == multiset(free) + multiset(deferred);
    assert multiset(free1 + deferred) == multiset(free1) + multiset(deferred);
  }

  /** The `vkDestroyFence` calls for the first n fences. */
  function DestroyCalls(fences: seq<Handle>, n: nat): seq<NativeCall>
    requires n <= |fences|
  {
    if n == 0 then [] else DestroyCalls(fences, n - 1) + [DestroyFence(fences[n - 1])]
  }

  /** Every entry of `m` is kept in `m'`: a cache that only grows. */
  predicate Grew<K, V(==)>(m: map<K, V>, m': map<K, V>)
  {
    forall k :: k in m ==> k in m' && m'[k] == m[k]
  }

  lemma GrewTrans<K, V>(m: map<K, V>, m': map<K, V>, m'': map<K, V>)
    requires Grew(m, m') && Grew(m', m'')
    ensures Grew(m, m'')
  {
  }

  // ---------------------------------------------------------------------------
  // Render passes

  /** The description `get_renderpass` builds for one colour attachment. */
  function ColorAttachmentDescription(c: ColorAttachment): AttachmentDescription
  {
    AttachmentDescription(c.format, if c.clear then LoadOpLoad else LoadOpClear, ColorAttachmentOptimal)
  }

  /**
   * The attachment descriptions `get_renderpass` builds for a render-pass
   * key: the colour attachments in order, then the depth attachment when
   * there is one. As written, a cleared attachment is given the LOAD
   * operation and an uncleared one CLEAR.
   */
  function PassAttachments(desc: RenderPassDesc): (atts: seq<AttachmentDescription>)
    ensures var colors := desc.colorAttachments;
      && |atts| == |colors| + (if desc.depthAttachment != Undefined then 1 else 0)
      && (forall k :: 0 <= k < |colors| ==> atts[k].format == colors[k].format)
      && (forall k :: 0 <= k < |colors| ==> (atts[k].loadOp == LoadOpLoad <==> colors[k].clear))
      && (forall k :: 0 <= k < |colors| ==> atts[k].finalLayout == ColorAttachmentOptimal)
    ensures desc.depthAttachment != Undefined ==>
      && atts[|desc.colorAttachments|].format == desc.depthAttachment
      && (atts[|desc.colorAttachments|].loadOp == LoadOpLoad <==> desc.clearDepth)
      && atts[|desc.colorAttachments|].finalLayout == DepthAttachmentOptimal
  {
    var colors := desc.colorAttachments;
    seq(|colors|, k requires 0 <= k < |colors| => ColorAttachmentDescription(colors[k]))
      + (if desc.depthAttachment != Undefined
         then [AttachmentDescription(desc.depthAttachment, if desc.clearDepth then LoadOpLoad else LoadOpClear, DepthAttachmentOptimal)]
         else [])
  }

  /**
   * The creation info `get_renderpass` passes to `vkCreateRenderPass`, and
   * the subpass it builds beside it. The subpass's reference index is never
   * advanced, so every reference (colour and depth) names attachment 0; and
   * the creation info declares one subpass but passes a null subpass array,
   * so the subpass never reaches the driver.
   */
  method BuildRenderPassInfo(desc: RenderPassDesc) returns (info: RenderPassInfo, subpass: SubpassInfo)
    ensures info == RenderPassInfo(PassAttachments(desc), 1, None)
    ensures |subpass.colorRefs| == |desc.colorAttachments|
    ensures forall k :: 0 <= k < |desc.colorAttachments| ==> subpass.colorRefs[k] == 0
    ensures subpass.depthRef == if desc.depthAttachment != Undefined then Some(0) else None
  {
    var attachments: seq<AttachmentDescription> := [];
    var colorRefs: seq<nat> := [];
    var i: nat := 0;
    for k := 0 to |desc.colorAttachments|
      invariant |attachments| == |colorRefs| == k
      invariant forall j :: 0 <= j < k ==> attachments[j] == ColorAttachmentDescription(desc.colorAttachments[j])
      invariant forall j :: 0 <= j < k ==> colorRefs[j] == i
      invariant i == 0
    {
      var c := desc.colorAttachments[k];
      attachments := attachments + [AttachmentDescription(c.format, if c.clear then LoadOpLoad else LoadOpClear, ColorAttachmentOptimal)];
      colorRefs := colorRefs + [i];
    }
    var depthRef: Option<nat> := None;
    if desc.depthAttachment != Undefined {
      attachments := attachments + [AttachmentDescription(
        desc.depthAttachment, if desc.clearDepth then LoadOpLoad else LoadOpClear, DepthAttachmentOptimal)];
      depthRef := Some(i);
    }
    subpass := SubpassInfo(colorRefs, depthRef);
    info := RenderPassInfo(attachments, 1, None);
  }

  // ---------------------------------------------------------------------------
  // The device

  class VulkanDevice {
    const driver: NativeDriver
    /** The device's own address, which `DeviceAllocation::device` records. */
    const id: nat
    /** `cmd_sync_fence_`. */
    const syncFence: Handle

    var allocCnt: nat
    var allocations: map<nat, AllocationInternal>
    var imageAllocations: map<nat, ImageAllocation>

    var freeCmdBuffers: seq<Handle>
    /** In-flight command buffers and the fence of their submission. */
    var inFlightCmdLists: map<Handle, Handle>
    /** Command buffers released while in flight. */
    var deallocCmdLists: seq<Handle>

    /** Descriptor pools by the layout they allocate. */
    var descSetPools: map<Handle, DescPool>
    var inFlightDescSets: set<Handle>
    /** Descriptor sets released while in flight, with the layout of their pool. */
    var deallocDescSets: seq<(Handle, Handle)>

    var renderpassPools: map<RenderPassDesc, Handle>
    var framebufferPools: map<FramebufferDesc, Handle>
    var descSetLayouts: map<SetLayout, Handle>

    /**
     * Allocation ids are below the counter, nothing ever marks a descriptor
     * set in flight, every cached layout and deferred set has its pool, and
     * every layout keying a pool is a handle the driver has already issued.
     */
    ghost predicate Valid()
      reads this, driver
    {
      Consistent() && HandlesIssued()
    }

    /** Every layout keying a pool is a handle the driver has already issued. */
    ghost predicate HandlesIssued()
      reads this, driver
    {
      forall l :: l in descSetPools ==> l <= driver.next
    }

    /** The part of `Valid` about the device's own fields. */
    ghost predicate Consistent()
      reads this
    {
      && id != 0
      && (forall k :: k in allocations ==> k < allocCnt)
      && (forall k :: k in imageAllocations ==> k < allocCnt)
      && inFlightDescSets == {}
      && (forall s :: s in descSetLayouts ==> descSetLayouts[s] in descSetPools)
      && (forall i :: 0 <= i < |deallocDescSets| ==> deallocDescSets[i].0 in descSetPools)
    }

    twostate predicate MemoryUnchanged()
      reads this
    {
      allocCnt == old(allocCnt) && allocations == old(allocations) && imageAllocations == old(imageAllocations)
    }

    twostate predicate CommandBuffersUnchanged()
      reads this
    {
      freeCmdBuffers == old(freeCmdBuffers) && inFlightCmdLists == old(inFlightCmdLists) && deallocCmdLists == old(deallocCmdLists)
    }

    twostate predicate DescriptorSetsUnchanged()
      reads this
    {
      && descSetPools == old(descSetPools) && inFlightDescSets == old(inFlightDescSets)
      && deallocDescSets == old(deallocDescSets) && descSetLayouts == old(descSetLayouts)
    }

    twostate predicate PassCachesUnchanged()
      reads this
    {
      renderpassPools == old(renderpassPools) && framebufferPools == old(framebufferPools)
    }

    /** Every field of the device except the layout cache and the descriptor pools. */
    ghost function OtherState(): DeviceRest
      reads this
    {
      DeviceRest(allocCnt, allocations, imageAllocations, freeCmdBuffers, inFlightCmdLists, deallocCmdLists,
                 inFlightDescSets, deallocDescSets, renderpassPools, framebufferPools)
    }

    /**
     * Nothing but the layout cache and the descriptor pools changed: memory,
     * command buffers, in-flight and deferred sets and the pass caches are
     * as before.
     */
    twostate predicate RestUnchanged()
      reads this
    {
      OtherState() == old(OtherState())
    }

    /**
     * Only the layout cache and the descriptor pools grew: every cached
     * layout and every pool is kept, and nothing else of the device changed.
     */
    twostate predicate LayoutCacheGrew()
      reads this
    {
      RestUnchanged() && Grew(old(descSetLayouts), descSetLayouts) && Grew(old(descSetPools), descSetPools)
    }

    /** The pass caches only grew: every cached render pass and framebuffer is kept. */
    twostate predicate PassCachesGrew()
      reads this
    {
      Grew(old(renderpassPools), renderpassPools) && Grew(old(framebufferPools), framebufferPools)
    }

    /** `VulkanDevice(params)`: creates the synchronisation fence; everything else starts empty. */
    constructor (driver: NativeDriver, id: nat)
      requires id != 0
      modifies driver
      ensures Valid() && this.driver == driver && this.id == id
      ensures allocCnt == 0 && allocations == map[] && imageAllocations == map[]
      ensures freeCmdBuffers == [] && inFlightCmdLists == map[] && deallocCmdLists == []
      ensures descSetPools == map[] && deallocDescSets == [] && descSetLayouts == map[]
      ensures renderpassPools == map[] && framebufferPools == map[]
      ensures syncFence == old(driver.next) + 1 && driver.next == syncFence
      ensures driver.log == old(driver.log) + [Created(FenceObject, syncFence)]
    {
      this.driver := driver;
      this.id := id;
      var fence := driver.Create(FenceObject);
      syncFence := fence;
      allocCnt := 0;
      allocations := map[];
      imageAllocations := map[];
      freeCmdBuffers := [];
      inFlightCmdLists := map[];
      deallocCmdLists := [];
      descSetPools := map[];
      inFlightDescSets := {};
      deallocDescSets := [];
      renderpassPools := map[];
      framebufferPools := map[];
      descSetLayouts := map[];
    }

    // --- Memory

    /** `allocate_memory`: a new allocation id and a buffer with the usage for the requested host access. */
    method AllocateMemory(size: U64, hostRead: bool, hostWrite: bool) returns (alloc: DeviceAllocation)
      requires Valid()
      modifies this, driver
      ensures Valid()
      ensures alloc == DeviceAllocation(id, old(allocCnt)) && allocCnt == old(allocCnt) + 1
      ensures alloc.allocId !in old(allocations)
      ensures allocations == old(allocations)[alloc.allocId := AllocationInternal(driver.next, size, UsageFor(hostRead, hostWrite), 0)]
      ensures driver.next == old(driver.next) + 1
      ensures driver.log == old(driver.log) + [Created(BufferObject(size, UsageFor(hostRead, hostWrite)), driver.next)]
      ensures imageAllocations == old(imageAllocations)
      ensures CommandBuffersUnchanged() && DescriptorSetsUnchanged() && PassCachesUnchanged()
    {
      alloc := DeviceAllocation(id, allocCnt);
      allocCnt := allocCnt + 1;
      var usage := UsageFor(hostRead, hostWrite);
      var buffer := driver.Create(BufferObject(size, usage));
      allocations := allocations[alloc.allocId := AllocationInternal(buffer, size, usage, 0)];
    }

    /**
     * `dealloc_memory`: destroys the buffer and forgets the allocation. An
     * unknown id is looked up with `operator[]`, which inserts an empty
     * record, so a null buffer is destroyed and the table ends unchanged.
     */
    method DeallocMemory(alloc: DeviceAllocation)
      requires Valid()
      modifies this, driver
      ensures Valid()
      ensures allocations == old(allocations) - {alloc.allocId}
      ensures driver.next == old(driver.next)
      ensures driver.log == old(driver.log) + [DestroyBuffer(
        if alloc.allocId in old(allocations) then old(allocations)[alloc.allocId].buffer else NullHandle)]
      ensures allocCnt == old(allocCnt) && imageAllocations == old(imageAllocations)
      ensures CommandBuffersUnchanged() && DescriptorSetsUnchanged() && PassCachesUnchanged()
    {
      var record := if alloc.allocId in allocations then allocations[alloc.allocId] else AllocationInternal(NullHandle, 0, GpuOnly, 0);
      allocations := allocations[alloc.allocId := record];
      driver.Call(DestroyBuffer(record.buffer));
      allocations := allocations - {alloc.allocId};
    }

    /** The mapping step shared by `map_range` and `map`. */
    method MapAt(allocId: nat, offset: U64, size: Option<U64>) returns (r: Result<Handle, DeviceError>)
      requires Valid()
      modifies this, driver
      ensures Valid()
      ensures var m := MapIn(old(allocations), allocId, old(driver.next) + 1);
        && (m.Err? ==> r == Err(m.error) && allocations == old(allocations) && driver.log == old(driver.log) && driver.next == old(driver.next))
        && (m.Ok? ==>
              && r == Ok(old(driver.next) + 1) && allocations == m.value && driver.next == r.value
              && driver.log == old(driver.log) + [Created(HostMapping(old(allocations)[allocId].buffer, offset,
                   if size.Some? then size.value else old(allocations)[allocId].size), r.value)])
      ensures allocCnt == old(allocCnt) && imageAllocations == old(imageAllocations)
      ensures CommandBuffersUnchanged() && DescriptorSetsUnchanged() && PassCachesUnchanged()
    {
      if allocId !in allocations {
        return Err(UnknownAlloc);
      }
      var record := allocations[allocId];
      if record.mapped != 0 {
        return Err(AlreadyMapped);
      }
      var host := driver.Create(HostMapping(record.buffer, offset, if size.Some? then size.value else record.size));
      allocations := allocations[allocId := record.(mapped := host)];
      return Ok(host);
    }

    /** `map_range(ptr, size)`: maps `size` bytes from the pointer's offset. */
    method MapRange(ptr: DevicePtr, size: U64) returns (r: Result<Handle, DeviceError>)
      requires Valid()
      modifies this, driver
      ensures Valid()
      ensures var m := MapIn(old(allocations), ptr.allocId, old(driver.next) + 1);
        && (m.Err? ==> r == Err(m.error) && allocations == old(allocations) && driver.log == old(driver.log) && driver.next == old(driver.next))
        && (m.Ok? ==>
              && r == Ok(old(driver.next) + 1) && allocations == m.value && driver.next == r.value
              && driver.log == old(driver.log) + [Created(HostMapping(old(allocations)[ptr.allocId].buffer, ptr.offset, size), r.value)])
      ensures allocCnt == old(allocCnt) && imageAllocations == old(imageAllocations)
      ensures CommandBuffersUnchanged() && DescriptorSetsUnchanged() && PassCachesUnchanged()
    {
      r := MapAt(ptr.allocId, ptr.offset, Some(size));
    }

    /** `map(alloc)`: maps the whole allocation. */
    method Map(alloc: DeviceAllocation) returns (r: Result<Handle, DeviceError>)
      requires Valid()
      modifies this, driver
      ensures Valid()
      ensures var m := MapIn(old(allocations), alloc.allocId, old(driver.next) + 1);
        && (m.Err? ==> r == Err(m.error) && allocations == old(allocations) && driver.log == old(driver.log) && driver.next == old(driver.next))
        && (m.Ok? ==>
              && r == Ok(old(driver.next) + 1) && allocations == m.value && driver.next == r.value
              && driver.log == old(driver.log) + [Created(HostMapping(old(allocations)[alloc.allocId].buffer, 0,
                   old(allocations)[alloc.allocId].size), r.value)])
      ensures allocCnt == old(allocCnt) && imageAllocations == old(imageAllocations)
      ensures CommandBuffersUnchanged() && DescriptorSetsUnchanged() && PassCachesUnchanged()
    {
      r := MapAt(alloc.allocId, 0, None);
    }

    /** `unmap(ptr)` and `unmap(alloc)`: only the allocation id matters. */
    method Unmap(allocId: nat) returns (r: Result<(), DeviceError>)
      requires Valid()
      modifies this, driver
      ensures Valid()
      ensures var m := UnmapIn(old(allocations), allocId);
        && (m.Err? ==> r == Err(m.error) && allocations == old(allocations) && driver.log == old(driver.log))
        && (m.Ok? ==>
              && r == Ok(()) && allocations == m.value
              && driver.log == old(driver.log) + [UnmapMemory(old(allocations)[allocId].buffer)])
      ensures driver.next == old(driver.next)
      ensures allocCnt == old(allocCnt) && imageAllocations == old(imageAllocations)
      ensures CommandBuffersUnchanged() && DescriptorSetsUnchanged() && PassCachesUnchanged()
    {
      if allocId !in allocations {
        return Err(UnknownAlloc);
      }
      var record := allocations[allocId];
      if record.mapped == 0 {
        return Err(NotMapped);
      }
      driver.Call(UnmapMemory(record.buffer));
      allocations := allocations[allocId := record.(mapped := 0)];
      return Ok(());
    }

    /** `import_vk_image`: registers an external image under a new allocation id. */
    method ImportVkImage(image: Handle, view: Handle, format: VkFormat) returns (alloc: DeviceAllocation)
      requires Valid()
      modifies this
      ensures Valid()
      ensures alloc == DeviceAllocation(id, old(allocCnt)) && allocCnt == old(allocCnt) + 1
      ensures alloc.allocId !in old(imageAllocations) && alloc.allocId !in allocations
      ensures imageAllocations == old(imageAllocations)[alloc.allocId := ImageAllocation(image, view, format)]
      ensures allocations == old(allocations)
      ensures CommandBuffersUnchanged() && DescriptorSetsUnchanged() && PassCachesUnchanged()
    {
      alloc := DeviceAllocation(id, allocCnt);
      allocCnt := allocCnt + 1;
      imageAllocations := imageAllocations[alloc.allocId := ImageAllocation(image, view, format)];
    }

    /** `get_vkbuffer`. */
    function GetVkBuffer(allocId: nat): (r: Result<Handle, DeviceError>)
      reads this
      ensures r.Ok? <==> allocId in allocations
      ensures r.Ok? ==> r.value == BufferTable()[allocId]
    {
      if allocId in allocations then Ok(allocations[allocId].buffer) else Err(UnknownAlloc)
    }

    /** `get_vk_image`. */
    function GetVkImage(allocId: nat): (r: Result<ImageAllocation, DeviceError>)
      reads this
      ensures r.Ok? <==> allocId in imageAllocations
      ensures r.Ok? ==> r.value == imageAllocations[allocId]
    {
      if allocId in imageAllocations then Ok(imageAllocations[allocId]) else Err(UnknownAlloc)
    }

    /** Native calls that create nothing, made on the device's behalf (recorded commands, descriptor writes). */
    method Record(calls: seq<NativeCall>)
      requires Valid()
      modifies driver
      ensures Valid()
      ensures driver.next == old(driver.next) && driver.log == old(driver.log) + calls
    {
      for i := 0 to |calls|
        invariant driver.next == old(driver.next) && driver.log == old(driver.log) + calls[..i]
      {
        driver.Call(calls[i]);
        assert calls[..i + 1] == calls[..i] + [calls[i]];
      }
      assert calls[..|calls|] == calls;
    }

    // --- Caches

    /** `get_renderpass`: the cached render pass for the key, or a new one built by `BuildRenderPassInfo`. */
    method GetRenderpass(desc: RenderPassDesc) returns (rp: Handle)
      requires Valid()
      modifies this, driver
      ensures Valid()
      ensures desc in renderpassPools && renderpassPools[desc] == rp
      ensures desc in old(renderpassPools) ==>
        && rp == old(renderpassPools)[desc]
        && renderpassPools == old(renderpassPools) && driver.log == old(driver.log) && driver.next == old(driver.next)
      ensures desc !in old(renderpassPools) ==>
        && rp == old(driver.next) + 1
        && renderpassPools == old(renderpassPools)[desc := rp]
        && driver.log == old(driver.log) + [Created(RenderPassObject(RenderPassInfo(PassAttachments(desc), 1, None)), rp)]
      ensures framebufferPools == old(framebufferPools)
      ensures MemoryUnchanged() && CommandBuffersUnchanged() && DescriptorSetsUnchanged()
    {
      if desc in renderpassPools {
        return renderpassPools[desc];
      }
      var info, _ := BuildRenderPassInfo(desc);
      rp := driver.Create(RenderPassObject(info));
      renderpassPools := renderpassPools[desc := rp];
    }

    /** `get_framebuffer`: the cached framebuffer for the key, or a new one. */
    method GetFramebuffer(desc: FramebufferDesc) returns (fb: Handle)
      requires Valid()
      modifies this, driver
      ensures Valid()
      ensures desc in framebufferPools && framebufferPools[desc] == fb
      ensures desc in old(framebufferPools) ==>
        && fb == old(framebufferPools)[desc]
        && framebufferPools == old(framebufferPools) && driver.log == old(driver.log) && driver.next == old(driver.next)
      ensures desc !in old(framebufferPools) ==>
        && fb == old(driver.next) + 1
        && framebufferPools == old(framebufferPools)[desc := fb]
        && driver.log == old(driver.log) + [Created(FramebufferObject(desc), fb)]
      ensures renderpassPools == old(renderpassPools)
      ensures MemoryUnchanged() && CommandBuffersUnchanged() && DescriptorSetsUnchanged()
    {
      if desc in framebufferPools {
        return framebufferPools[desc];
      }
      fb := driver.Create(FramebufferObject(desc));
      framebufferPools := framebufferPools[desc := fb];
    }

    /**
     * The two lookups of `begin_renderpass`: the render pass for the key,
     * then the framebuffer over `views` with that render pass and size.
     */
    method PassObjects(desc: RenderPassDesc, views: seq<Handle>, width: U32, height: U32) returns (rp: Handle, fb: Handle)
      requires Valid()
      modifies this, driver
      ensures Valid() && MemoryUnchanged() && CommandBuffersUnchanged() && DescriptorSetsUnchanged() && PassCachesGrew()
      ensures desc in renderpassPools && rp == renderpassPools[desc]
      ensures var fbDesc := FramebufferDesc(views, width, height, rp);
        fbDesc in framebufferPools && fb == framebufferPools[fbDesc]
      ensures |driver.log| >= |old(driver.log)| && driver.log[..|old(driver.log)|] == old(driver.log)
    {
      rp := GetRenderpass(desc);
      fb := GetFramebuffer(FramebufferDesc(views, width, height, rp));
    }

    /**
     * `get_desc_set_layout`: the cached layout for the set's structure, or a
     * new layout together with a fresh pool (1000 sets, 1000 uniform and 1000
     * storage descriptors) whose free list is empty.
     */
    method GetDescSetLayout(layout: SetLayout) returns (l: Handle)
      requires Valid()
      modifies this, driver
      ensures Valid()
      ensures layout in descSetLayouts && descSetLayouts[layout] == l && l in descSetPools
      ensures layout in old(descSetLayouts) ==>
        && l == old(descSetLayouts)[layout]
        && DescriptorSetsUnchanged() && driver.log == old(driver.log) && driver.next == old(driver.next)
      ensures layout !in old(descSetLayouts) ==>
        && l == old(driver.next) + 1 && l !in old(descSetPools)
        && descSetLayouts == old(descSetLayouts)[layout := l]
        && descSetPools == old(descSetPools)[l := DescPool(l + 1, [])]
        && driver.log == old(driver.log) + [Created(DescriptorSetLayoutObject(layout), l), Created(DescriptorPoolObject(1000, 1000, 1000), l + 1)]
      ensures inFlightDescSets == old(inFlightDescSets) && deallocDescSets == old(deallocDescSets)
      ensures MemoryUnchanged() && CommandBuffersUnchanged() && PassCachesUnchanged()
      ensures descSetLayouts == old(descSetLayouts)[layout := l] && LayoutCacheGrew()
    {
      if layout in descSetLayouts {
        l := descSetLayouts[layout];
        assert descSetLayouts[layout := l] == descSetLayouts;
        return;
      }
      l := driver.Create(DescriptorSetLayoutObject(layout));
      var pool := driver.Create(DescriptorPoolObject(1000, 1000, 1000));
      descSetLayouts := descSetLayouts[layout := l];
      descSetPools := descSetPools[l := DescPool(pool, [])];
    }

    // --- Descriptor sets

    /**
     * The second half of `create_descriptor_set_layout`: the layout of each
     * set in `used`, in the order `order` of an unordered set, taken from the
     * binder's sets; a set number the binder does not hold fails (`get_set`).
     */
    method LayoutsFor(sets: Sets, used: set<nat>) returns (r: Result<seq<Handle>, DeviceError>, ghost order: seq<nat>)
      requires Valid()
      modifies this, driver
      ensures Valid() && LayoutCacheGrew()
      ensures r.Ok? <==> used <= sets.Keys
      ensures r.Err? ==> r == Err(BinderFailed(UnknownSet))
      ensures r.Ok? ==>
        && |order| == |used| && (forall s :: s in used ==> s in order)
        && |r.value| == |order|
        && forall k :: 0 <= k < |order| ==> LayoutCached(sets, order[k], r.value[k], descSetLayouts)
    {
      var todo := used;
      ghost var done: set<nat> := {};
      var handles: seq<Handle> := [];
      order := [];
      while todo != {}
        invariant Valid() && LayoutCacheGrew()
        invariant LayoutProgress(sets, used, done, todo, order, handles, descSetLayouts)
        decreases |todo|
      {
        var s := Pick(todo);
        if s !in sets {
          return Err(BinderFailed(UnknownSet)), order;
        }
        ghost var layouts, pools := descSetLayouts, descSetPools;
        var layout := GetDescSetLayout(LayoutOf(sets[s]));
        GrewTrans(old(descSetLayouts), layouts, descSetLayouts);
        GrewTrans(old(descSetPools), pools, descSetPools);
        LayoutProgressStep(sets, used, done, todo, s, order, handles, layouts, descSetLayouts);
        handles := handles + [layout];
        order := order + [s];
        todo := todo - {s};
        done := done + {s};
      }
      LayoutProgressDone(sets, used, done, order, handles, descSetLayouts);
      return Ok(handles), order;
    }

    /**
     * The first two steps of binding one set in `bind_resources`: the
     * layout for the set's structure and a descriptor set from its pool.
     * The set is the last one on the pool's free list, taken off it; only
     * when the list is empty (always so for a new layout's new pool) is a
     * set allocated.
     */
    method AcquireDescSet(layout: SetLayout) returns (l: Handle, descSet: Handle)
      requires Valid()
      modifies this, driver
      ensures Valid() && MemoryUnchanged() && CommandBuffersUnchanged() && PassCachesUnchanged()
      ensures inFlightDescSets == old(inFlightDescSets) && deallocDescSets == old(deallocDescSets)
      ensures layout in descSetLayouts && descSetLayouts[layout] == l && descSetLayouts == old(descSetLayouts)[layout := l]
      ensures Grew(old(descSetLayouts), descSetLayouts) && (layout !in old(descSetLayouts) ==> l !in old(descSetPools))
      ensures l in descSetPools && (l in old(descSetPools) ==> descSetPools[l].pool == old(descSetPools)[l].pool)
      ensures descSetPools == old(descSetPools)[l := descSetPools[l].(freeSets := PopBack(FreeSets(old(descSetPools), l)).1)]
      ensures PopBack(FreeSets(old(descSetPools), l)).0.Some? ==>
        descSet == PopBack(FreeSets(old(descSetPools), l)).0.value && driver.log == old(driver.log)
      ensures PopBack(FreeSets(old(descSetPools), l)).0.None? ==>
        && descSet == driver.next && |driver.log| > 0
        && driver.log[|driver.log| - 1] == Created(DescriptorSetObject(descSetPools[l].pool, l), descSet)
      ensures |driver.log| >= |old(driver.log)| && driver.log[..|old(driver.log)|] == old(driver.log)
    {
      l := GetDescSetLayout(layout);
      var got := AllocDescSet(l);
      descSet := got.value;
    }

    /** `alloc_desc_set`: the last free set of the layout's pool, or a newly allocated one. */
    method AllocDescSet(layout: Handle) returns (r: Result<Handle, DeviceError>)
      requires Valid()
      modifies this, driver
      ensures Valid()
      ensures layout !in old(descSetPools) ==> r == Err(UnknownLayout) && DescriptorSetsUnchanged() && driver.log == old(driver.log)
      ensures layout in old(descSetPools) ==>
        && r.Ok? && var pool := old(descSetPools)[layout];
        && (PopBack(pool.freeSets).0.Some? ==>
        && r.value == PopBack(pool.freeSets).0.value
        && descSetPools == old(descSetPools)[layout := pool.(freeSets := PopBack(pool.freeSets).1)]
        && driver.log == old(driver.log) && driver.next == old(driver.next))
        && (PopBack(pool.freeSets).0.None? ==>
        && r.value == old(driver.next) + 1 && driver.next == r.value && descSetPools == old(descSetPools)
        && driver.log == old(driver.log) + [Created(DescriptorSetObject(pool.pool, layout), r.value)])
      ensures descSetLayouts == old(descSetLayouts) && inFlightDescSets == old(inFlightDescSets) && deallocDescSets == old(deallocDescSets)
      ensures MemoryUnchanged() && CommandBuffersUnchanged() && PassCachesUnchanged()
    {
      if layout !in descSetPools {
        return Err(UnknownLayout);
      }
      var pool := descSetPools[layout];
      if |pool.freeSets| > 0 {
        var descSet := pool.freeSets[|pool.freeSets| - 1];
        descSetPools := descSetPools[layout := pool.(freeSets := pool.freeSets[..|pool.freeSets| - 1])];
        return Ok(descSet);
      }
      var descSet := driver.Create(DescriptorSetObject(pool.pool, layout));
      return Ok(descSet);
    }

    /**
     * `dealloc_desc_set`: a set not in flight goes back on its pool's free
     * list, one in flight is deferred. Nothing marks a set in flight, so the
     * set always goes straight back.
     */
    method DeallocDescSet(layout: Handle, descSet: Handle) returns (r: Result<(), DeviceError>)
      requires Valid()
      modifies this
      ensures Valid()
      ensures layout !in old(descSetPools) ==> r == Err(UnknownLayout) && DescriptorSetsUnchanged()
      ensures layout in old(descSetPools) ==>
        && r == Ok(())
        && descSetPools == old(descSetPools)[layout := old(descSetPools)[layout].(freeSets := old(descSetPools)[layout].freeSets + [descSet])]
      ensures descSetLayouts == old(descSetLayouts) && inFlightDescSets == old(inFlightDescSets) && deallocDescSets == old(deallocDescSets)
      ensures MemoryUnchanged() && CommandBuffersUnchanged() && PassCachesUnchanged()
    {
      if layout !in descSetPools {
        return Err(UnknownLayout);
      }
      var pool := descSetPools[layout];
      if descSet !in inFlightDescSets {
        descSetPools := descSetPools[layout := pool.(freeSets := pool.freeSets + [descSet])];
      } else {
        // The deferring branch is never taken: no set is ever marked in flight.
        assert false;
      }
      return Ok(());
    }

    /**
     * The loop of `~VulkanCommandList`: each (layout, set) pair goes back
     * to its pool through `dealloc_desc_set`, in order; a layout without a
     * pool stops it.
     */
    method ReturnListSets(sets: seq<(Handle, Handle)>) returns (r: Result<(), DeviceError>)
      requires Valid()
      modifies this
      ensures Valid() && RestUnchanged() && descSetLayouts == old(descSetLayouts)
      ensures r.Ok? <==> forall k :: 0 <= k < |sets| ==> sets[k].0 in old(descSetPools)
      ensures r.Ok? ==> descSetPools == ReturnSets(old(descSetPools), sets, |sets|)
      ensures r.Err? ==> exists j ::
        && 0 <= j < |sets| && sets[j].0 !in old(descSetPools)
        && (forall k :: 0 <= k < j ==> sets[k].0 in old(descSetPools))
        && descSetPools == ReturnSets(old(descSetPools), sets, j)
    {
      r := Ok(());
      for i := 0 to |sets|
        invariant Valid() && RestUnchanged() && descSetLayouts == old(descSetLayouts) && r == Ok(())
        invariant forall k :: 0 <= k < i ==> sets[k].0 in old(descSetPools)
        invariant descSetPools == ReturnSets(old(descSetPools), sets, i)
      {
        ReturnSetsKeepsPools(old(descSetPools), sets, i);
        var (layout, descSet) := sets[i];
        r := DeallocDescSet(layout, descSet);
        if r.Err? {
          return;
        }
      }
    }

    // --- Command buffers

    /** The buffer `new_command_list` starts from: the last free one, or a newly allocated one. */
    method TakeCommandBuffer() returns (buffer: Handle)
      requires Valid()
      modifies this, driver
      ensures Valid()
      ensures PopBack(old(freeCmdBuffers)).0.Some? ==>
        && buffer == PopBack(old(freeCmdBuffers)).0.value && freeCmdBuffers == PopBack(old(freeCmdBuffers)).1
        && driver.log == old(driver.log) && driver.next == old(driver.next)
      ensures PopBack(old(freeCmdBuffers)).0.None? ==>
        && buffer == old(driver.next) + 1 && driver.next == buffer && freeCmdBuffers == old(freeCmdBuffers)
        && driver.log == old(driver.log) + [Created(CommandBufferObject, buffer)]
      ensures inFlightCmdLists == old(inFlightCmdLists) && deallocCmdLists == old(deallocCmdLists)
      ensures MemoryUnchanged() && DescriptorSetsUnchanged() && PassCachesUnchanged()
    {
      if |freeCmdBuffers| > 0 {
        buffer := freeCmdBuffers[|freeCmdBuffers| - 1];
        freeCmdBuffers := freeCmdBuffers[..|freeCmdBuffers| - 1];
      } else {
        buffer := driver.Create(CommandBufferObject);
      }
    }

    /** Where `dealloc_command_list` puts a finished buffer: the free list, or the deferred list while it is in flight. */
    method ReleaseCommandBuffer(buffer: Handle)
      requires Valid()
      modifies this
      ensures Valid()
      ensures buffer !in inFlightCmdLists ==> freeCmdBuffers == old(freeCmdBuffers) + [buffer] && deallocCmdLists == old(deallocCmdLists)
      ensures buffer in inFlightCmdLists ==> deallocCmdLists == old(deallocCmdLists) + [buffer] && freeCmdBuffers == old(freeCmdBuffers)
      ensures inFlightCmdLists == old(inFlightCmdLists)
      ensures MemoryUnchanged() && DescriptorSetsUnchanged() && PassCachesUnchanged()
    {
      if buffer !in inFlightCmdLists {
        freeCmdBuffers := freeCmdBuffers + [buffer];
      } else {
        deallocCmdLists := deallocCmdLists + [buffer];
      }
    }

    /** Records a submission: a buffer already in flight keeps its first fence. */
    method MarkInFlight(buffer: Handle, fence: Handle)
      requires Valid()
      modifies this
      ensures Valid()
      ensures buffer in inFlightCmdLists
      ensures inFlightCmdLists == if buffer in old(inFlightCmdLists) then old(inFlightCmdLists) else old(inFlightCmdLists)[buffer := fence]
      ensures freeCmdBuffers == old(freeCmdBuffers) && deallocCmdLists == old(deallocCmdLists)
      ensures MemoryUnchanged() && DescriptorSetsUnchanged() && PassCachesUnchanged()
    {
      if buffer !in inFlightCmdLists {
        inFlightCmdLists := inFlightCmdLists[buffer := fence];
      }
    }

    /** The fences of the in-flight buffers, in the table's iteration order. */
    method InFlightFences() returns (fences: seq<Handle>, ghost buffers: seq<Handle>)
      ensures |fences| == |buffers| == |inFlightCmdLists|
      ensures forall i :: 0 <= i < |buffers| ==> buffers[i] in inFlightCmdLists && fences[i] == inFlightCmdLists[buffers[i]]
      ensures forall i, j :: 0 <= i < j < |buffers| ==> buffers[i] != buffers[j]
      ensures forall b :: b in inFlightCmdLists ==> b in buffers
    {
      fences := [];
      buffers := [];
      var todo := inFlightCmdLists.Keys;
      while todo != {}
        invariant todo <= inFlightCmdLists.Keys
        invariant |fences| == |buffers|
        invariant forall i :: 0 <= i < |buffers| ==> buffers[i] in inFlightCmdLists && buffers[i] !in todo && fences[i] == inFlightCmdLists[buffers[i]]
        invariant forall i, j :: 0 <= i < j < |buffers| ==> buffers[i] != buffers[j]
        invariant |buffers| + |todo| == |inFlightCmdLists.Keys|
        invariant forall b :: b in inFlightCmdLists && b !in todo ==> b in buffers
        decreases |todo|
      {
        var b := Pick(todo);
        fences := fences + [inFlightCmdLists[b]];
        buffers := buffers + [b];
        todo := todo - {b};
      }
    }

    /** Destroys the fences, in order. */
    method DestroyFences(fences: seq<Handle>)
      modifies driver
      ensures driver.next == old(driver.next)
      ensures driver.log == old(driver.log) + DestroyCalls(fences, |fences|)
    {
      for i := 0 to |fences|
        invariant driver.next == old(driver.next)
        invariant driver.log == old(driver.log) + DestroyCalls(fences, i)
      {
        driver.Call(DestroyFence(fences[i]));
      }
    }

    /** Appends the deferred command buffers to the free list. */
    method ReturnDeferredCommandBuffers()
      requires Valid()
      modifies this
      ensures Valid()
      ensures (freeCmdBuffers, deallocCmdLists) == SyncRecycle(old(freeCmdBuffers), old(deallocCmdLists))
      ensures inFlightCmdLists == old(inFlightCmdLists)
      ensures MemoryUnchanged() && DescriptorSetsUnchanged() && PassCachesUnchanged()
    {
      for i := 0 to |deallocCmdLists|
        invariant deallocCmdLists == old(deallocCmdLists) && inFlightCmdLists == old(inFlightCmdLists)
        invariant Valid()
        invariant freeCmdBuffers == old(freeCmdBuffers) + deallocCmdLists[..i]
        invariant MemoryUnchanged() && DescriptorSetsUnchanged() && PassCachesUnchanged()
      {
        freeCmdBuffers := freeCmdBuffers + [deallocCmdLists[i]];
        assert deallocCmdLists[..i + 1] == deallocCmdLists[..i] + [deallocCmdLists[i]];
      }
      assert deallocCmdLists[..|deallocCmdLists|] == deallocCmdLists;
    }

    /** Returns the deferred descriptor sets to their pools' free lists. */
    method ReturnDeferredDescSets()
      requires Valid()
      modifies this
      ensures Valid()
      ensures descSetPools == ReturnSets(old(descSetPools), deallocDescSets, |deallocDescSets|)
      ensures deallocDescSets == old(deallocDescSets) && descSetLayouts == old(descSetLayouts) && inFlightDescSets == old(inFlightDescSets)
      ensures MemoryUnchanged() && CommandBuffersUnchanged() && PassCachesUnchanged()
    {
      for i := 0 to |deallocDescSets|
        invariant deallocDescSets == old(deallocDescSets) && descSetLayouts == old(descSetLayouts) && inFlightDescSets == old(inFlightDescSets)
        invariant descSetPools == ReturnSets(old(descSetPools), deallocDescSets, i)
        invariant MemoryUnchanged() && CommandBuffersUnchanged() && PassCachesUnchanged()
      {
        ReturnSetsKeepsPools(old(descSetPools), deallocDescSets, i);
        var (layout, descSet) := deallocDescSets[i];
        descSetPools := descSetPools[layout := descSetPools[layout].(freeSets := descSetPools[layout].freeSets + [descSet])];
      }
      ReturnSetsKeepsPools(old(descSetPools), deallocDescSets, |deallocDescSets|);
    }

    /** Waits for the fences of all in-flight buffers, then destroys them. */
    method WaitForInFlight() returns (fences: seq<Handle>, ghost buffers: seq<Handle>)
      modifies driver
      ensures |fences| == |buffers| == |inFlightCmdLists|
      ensures forall b :: b in inFlightCmdLists <==> b in buffers
      ensures forall i :: 0 <= i < |buffers| ==> fences[i] == inFlightCmdLists[buffers[i]]
      ensures driver.next == old(driver.next)
      ensures driver.log == old(driver.log) + [WaitForFences(fences)] + DestroyCalls(fences, |fences|)
    {
      fences, buffers := InFlightFences();
      driver.Call(WaitForFences(fences));
      DestroyFences(fences);
    }

    /** Nothing is in flight any more. */
    method ForgetInFlight()
      requires Valid()
      modifies this
      ensures Valid()
      ensures inFlightCmdLists == map[] && inFlightDescSets == {}
      ensures freeCmdBuffers == old(freeCmdBuffers) && deallocCmdLists == old(deallocCmdLists)
      ensures descSetPools == old(descSetPools) && deallocDescSets == old(deallocDescSets) && descSetLayouts == old(descSetLayouts)
      ensures MemoryUnchanged() && PassCachesUnchanged()
    {
      inFlightCmdLists := map[];
      inFlightDescSets := {};
    }

    /**
     * `command_sync`: waits for and destroys the fences of all in-flight
     * buffers, forgets them, and returns deferred buffers and sets to their
     * free lists. The deferred lists are not emptied.
     */
    method CommandSync() returns (ghost fences: seq<Handle>, ghost buffers: seq<Handle>)
      requires Valid()
      modifies this, driver
      ensures Valid()
      ensures old(inFlightCmdLists) == map[] ==>
        && fences == [] && buffers == [] && driver.log == old(driver.log)
        && CommandBuffersUnchanged() && DescriptorSetsUnchanged()
      ensures old(inFlightCmdLists) != map[] ==>
        && |fences| == |buffers| == |old(inFlightCmdLists)|
        && (forall b :: b in old(inFlightCmdLists) <==> b in buffers)
        && (forall i :: 0 <= i < |buffers| ==> fences[i] == old(inFlightCmdLists)[buffers[i]])
        && driver.log == old(driver.log) + [WaitForFences(fences)] + DestroyCalls(fences, |fences|)
        && inFlightCmdLists == map[] && inFlightDescSets == {}
        && (freeCmdBuffers, deallocCmdLists) == SyncRecycle(old(freeCmdBuffers), old(deallocCmdLists))
        && descSetPools == ReturnSets(old(descSetPools), old(deallocDescSets), |old(deallocDescSets)|)
        && deallocDescSets == old(deallocDescSets) && descSetLayouts == old(descSetLayouts)
      ensures driver.next == old(driver.next)
      ensures MemoryUnchanged() && PassCachesUnchanged()
    {
      if |inFlightCmdLists| == 0 {
        return [], [];
      }
      fences, buffers := WaitForInFlight();
      ForgetInFlight();
      ReturnDeferredCommandBuffers();
      ReturnDeferredDescSets();
    }

    /**
     * `create_pipeline`: a compute pipeline from a SPIR-V compute shader;
     * any other source is refused.
     */
    method CreatePipeline(src: PipelineSource) returns (r: Result<Pipeline, DeviceError>, ghost order: seq<nat>)
      requires Valid()
      modifies this, driver
      ensures Valid() && LayoutCacheGrew()
      ensures !(src.isSpirvBinary && src.isComputeStage) ==>
        r == Err(UnsupportedSource) && driver.log == old(driver.log) && driver.next == old(driver.next) && DescriptorSetsUnchanged()
      ensures src.isSpirvBinary && src.isComputeStage ==> (r.Ok? <==> EverySetHasBuffers(src.reflection))
      ensures r.Ok? ==> var p, rss := r.value, src.reflection;
        && fresh(p) && p.Valid() && !p.isGraphics && p.driver == driver
        && p.binder.locked && p.binder.sets == RegisterAllSpec(map[], rss, |rss|)
        && |order| == |set i | 0 <= i < |rss| :: rss[i].setNumber| && (forall i :: 0 <= i < |rss| ==> rss[i].setNumber in order)
        && |p.setLayouts| == |order|
        && (forall k :: 0 <= k < |order| ==> LayoutCached(p.binder.sets, order[k], p.setLayouts[k], descSetLayouts))
        && p.pipelineLayout + 1 == p.pipeline == driver.next
        && |driver.log| >= 2 && driver.log[|driver.log| - 2] == Created(PipelineLayoutObject(p.setLayouts), p.pipelineLayout)
        && driver.log[|driver.log| - 1] == Created(ComputePipelineObject(p.pipelineLayout), p.pipeline)
    {
      if !(src.isSpirvBinary && src.isComputeStage) {
        return Err(UnsupportedSource), [];
      }
      r, order := NewPipeline(this, src.reflection, false);
    }

    // --- Command lists

    /** `new_command_list`: a command list recording into a recycled or new buffer. */
    method NewCommandList() returns (cl: CommandList)
      requires Valid()
      modifies this, driver
      ensures Valid()
      ensures fresh(cl) && cl.dev == this && !cl.finalized && cl.descSets == [] && cl.currentPipeline == null
      ensures PopBack(old(freeCmdBuffers)).0.Some? ==>
        && cl.buffer == PopBack(old(freeCmdBuffers)).0.value && freeCmdBuffers == PopBack(old(freeCmdBuffers)).1
        && driver.log == old(driver.log) + [BeginCommandBuffer(cl.buffer)] && driver.next == old(driver.next)
      ensures PopBack(old(freeCmdBuffers)).0.None? ==>
        && cl.buffer == old(driver.next) + 1 && driver.next == cl.buffer && freeCmdBuffers == old(freeCmdBuffers)
        && driver.log == old(driver.log) + [Created(CommandBufferObject, cl.buffer), BeginCommandBuffer(cl.buffer)]
      ensures inFlightCmdLists == old(inFlightCmdLists) && deallocCmdLists == old(deallocCmdLists)
      ensures MemoryUnchanged() && DescriptorSetsUnchanged() && PassCachesUnchanged()
    {
      var buffer := TakeCommandBuffer();
      cl := new CommandList(this, buffer);
    }

    /** `dealloc_command_list`: finalizes the list and recycles or defers its buffer. */
    method DeallocCommandList(cl: CommandList)
      requires Valid() && cl.dev == this
      modifies this, cl, driver
      ensures Valid()
      ensures cl.finalized && cl.RecordingUnchanged()
      ensures driver.next == old(driver.next)
      ensures driver.log == old(driver.log) + (if old(cl.finalized) then [] else [EndCommandBuffer(cl.buffer)])
      ensures cl.buffer !in inFlightCmdLists ==> freeCmdBuffers == old(freeCmdBuffers) + [cl.buffer] && deallocCmdLists == old(deallocCmdLists)
      ensures cl.buffer in inFlightCmdLists ==> deallocCmdLists == old(deallocCmdLists) + [cl.buffer] && freeCmdBuffers == old(freeCmdBuffers)
      ensures inFlightCmdLists == old(inFlightCmdLists)
      ensures MemoryUnchanged() && DescriptorSetsUnchanged() && PassCachesUnchanged()
    {
      var buffer := cl.Finalize();
      ReleaseCommandBuffer(buffer);
    }

    /** `submit`: finalizes the list, creates a fence, marks the buffer in flight and queues it. */
    method Submit(cl: CommandList)
      requires Valid() && cl.dev == this
      modifies this, cl, driver
      ensures Valid()
      ensures cl.finalized && cl.RecordingUnchanged()
      ensures var fence := old(driver.next) + 1;
        && driver.next == fence
        && driver.log == old(driver.log) + (if old(cl.finalized) then [] else [EndCommandBuffer(cl.buffer)])
                         + [Created(FenceObject, fence), QueueSubmit(cl.buffer, fence)]
        && inFlightCmdLists == if cl.buffer in old(inFlightCmdLists) then old(inFlightCmdLists) else old(inFlightCmdLists)[cl.buffer := fence]
      ensures freeCmdBuffers == old(freeCmdBuffers) && deallocCmdLists == old(deallocCmdLists)
      ensures MemoryUnchanged() && DescriptorSetsUnchanged() && PassCachesUnchanged()
    {
      var buffer := cl.Finalize();
      var fence := driver.Create(FenceObject);
      MarkInFlight(buffer, fence);
      driver.Call(QueueSubmit(buffer, fence));
    }

    /** `submit_synced`: finalizes the list, queues it with the device's own fence and waits for that fence. */
    method SubmitSynced(cl: CommandList)
      requires Valid() && cl.dev == this
      modifies cl, driver
      ensures Valid() && driver.next == old(driver.next)
      ensures cl.finalized && cl.RecordingUnchanged()
      ensures driver.log == old(driver.log) + (if old(cl.finalized) then [] else [EndCommandBuffer(cl.buffer)])
                            + [QueueSubmit(cl.buffer, syncFence), WaitForFences([syncFence])]
    {
      var buffer := cl.Finalize();
      driver.Call(QueueSubmit(buffer, syncFence));
      driver.Call(WaitForFences([syncFence]));
    }

    /** Allocation id to buffer, as the binder resolves pointers. */
    function BufferTable(): (t: map<nat, Handle>)
      reads this`allocations
      ensures t.Keys == allocations.Keys
    {
      map k | k in allocations :: allocations[k].buffer
    }
  }

  /**
   * Log entries `p` and `p + 1` write `bindings` into descriptor set `d`
   * and bind `d` as set 0 of pipeline layout `pl` at the COMPUTE bind point.
   */
  predicate BoundAt(log: seq<NativeCall>, p: nat, buffer: Handle, pl: Handle, d: Handle,
                    bindings: map<nat, Binding>, table: map<nat, Handle>)
  {
    && p + 1 < |log|
    && log[p].UpdateDescriptorSets? && UpdateWritesSet(log[p].update, d, bindings, table)
    && log[p + 1] == CmdBindDescriptorSets(buffer, ComputeBindPoint, pl, 0, d)
  }

  /**
   * What `bind_resources` leaves for set `s`: its buffers resolve, `pair`
   * holds the cached layout of its structure and the descriptor set, and
   * log entries `p` and `p + 1` write the set into it and bind it.
   */
  predicate SetRecorded(sets: Sets, s: nat, pair: (Handle, Handle), layouts: map<SetLayout, Handle>,
                        table: map<nat, Handle>, log: seq<NativeCall>, p: nat, buffer: Handle, pl: Handle)
  {
    && s in sets && Resolvable(sets[s], table)
    && LayoutOf(sets[s]) in layouts && pair.0 == layouts[LayoutOf(sets[s])]
    && BoundAt(log, p, buffer, pl, pair.1, sets[s], table)
  }

  /** `log'` keeps `log` as its prefix. */
  lemma PrefixTrans(log: seq<NativeCall>, log': seq<NativeCall>, log'': seq<NativeCall>)
    requires |log'| >= |log| && log'[..|log|] == log
    requires |log''| >= |log'| && log''[..|log'|] == log'
    ensures log''[..|log|] == log
  {
    assert log''[..|log|] == log''[..|log'|][..|log|];
  }

  /** Recorded entries stay recorded when the log grows. */
  lemma SetRecordedKept(sets: Sets, s: nat, pair: (Handle, Handle), layouts: map<SetLayout, Handle>,
                        layouts': map<SetLayout, Handle>, table: map<nat, Handle>,
                        log: seq<NativeCall>, log': seq<NativeCall>, p: nat, buffer: Handle, pl: Handle)
    requires SetRecorded(sets, s, pair, layouts, table, log, p, buffer, pl)
    requires Grew(layouts, layouts') && |log'| >= |log| && log'[..|log|] == log
    ensures SetRecorded(sets, s, pair, layouts', table, log', p, buffer, pl)
  {
    assert log'[p] == log'[..|log|][p];
    assert log'[p + 1] == log'[..|log|][p + 1];
  }

  /** Each position is past the previous one's two entries. */
  predicate Increasing(pos: seq<nat>)
  {
    forall i, j :: 0 <= i < j < |pos| ==> pos[i] + 1 < pos[j]
  }

  /** Set `order[k]` is recorded with `pairs[k]` at log position `pos[k]`, which is at least `start`. */
  predicate Records(sets: Sets, order: seq<nat>, pairs: seq<(Handle, Handle)>, pos: seq<nat>, start: nat,
                    layouts: map<SetLayout, Handle>, table: map<nat, Handle>, log: seq<NativeCall>, buffer: Handle, pl: Handle)
  {
    && |pairs| == |order| && |pos| == |order|
    && forall k :: 0 <= k < |order| ==> start <= pos[k] && SetRecorded(sets, order[k], pairs[k], layouts, table, log, pos[k], buffer, pl)
  }

  lemma RecordsStep(sets: Sets, order: seq<nat>, pairs: seq<(Handle, Handle)>, pos: seq<nat>, start: nat,
                    layouts: map<SetLayout, Handle>, layouts': map<SetLayout, Handle>, table: map<nat, Handle>,
                    log: seq<NativeCall>, log': seq<NativeCall>, buffer: Handle, pl: Handle, s: nat, pair: (Handle, Handle))
    requires Records(sets, order, pairs, pos, start, layouts, table, log, buffer, pl) && Increasing(pos)
    requires Grew(layouts, layouts') && |log| >= start && |log'| >= |log| + 2 && log'[..|log|] == log
    requires SetRecorded(sets, s, pair, layouts', table, log', |log'| - 2, buffer, pl)
    ensures Records(sets, order + [s], pairs + [pair], pos + [|log'| - 2], start, layouts', table, log', buffer, pl)
    ensures Increasing(pos + [|log'| - 2])
  {
    var order', pairs', pos' := order + [s], pairs + [pair], pos + [|log'| - 2];
    forall k | 0 <= k < |order'|
      ensures start <= pos'[k] && SetRecorded(sets, order'[k], pairs'[k], layouts', table, log', pos'[k], buffer, pl)
    {
      if k < |order| {
        SetRecordedKept(sets, order[k], pairs[k], layouts, layouts', table, log, log', pos[k], buffer, pl);
      }
    }
    forall i, j | 0 <= i < j < |pos'|
      ensures pos'[i] + 1 < pos'[j]
    {
      if j == |pos| {
        assert SetRecorded(sets, order[i], pairs[i], layouts, table, log, pos[i], buffer, pl);
      }
    }
  }

  /** A list that grew by one element keeps its suffixes, extended by that element. */
  lemma DropAppend<T>(a: seq<T>, a': seq<T>, n: nat)
    requires n <= |a| && |a'| == |a| + 1 && a'[..|a|] == a
    ensures a'[..n] == a[..n] && a'[n..] == a[n..] + [a'[|a|]]
  {
    assert a' == a + [a'[|a|]];
  }

  /** `done` and `todo` split `keys`, and `order` lists `done` once each. */
  predicate Picked(keys: set<nat>, done: set<nat>, todo: set<nat>, order: seq<nat>)
  {
    && done + todo == keys && done !! todo
    && Enumerates(order, done) && forall i, j :: 0 <= i < j < |order| ==> order[i] != order[j]
  }

  lemma PickedStep(keys: set<nat>, done: set<nat>, todo: set<nat>, order: seq<nat>, s: nat)
    requires Picked(keys, done, todo, order) && s in todo
    ensures Picked(keys, done + {s}, todo - {s}, order + [s])
  {
    MoveDone(keys, done, todo, s);
    EnumeratesStep(order, done, s);
  }

  /**
   * What the loop of `bind_resources` has recorded so far: the sets of
   * `order` each added one (layout, set) pair after the list's earlier ones
   * `prefix`, at increasing log positions `pos` past the log `log0` the
   * loop started from.
   */
  predicate BindTrace(sets: Sets, order: seq<nat>, pos: seq<nat>, prefix: seq<(Handle, Handle)>, descSets: seq<(Handle, Handle)>,
                      layouts: map<SetLayout, Handle>, table: map<nat, Handle>,
                      log0: seq<NativeCall>, log: seq<NativeCall>, buffer: Handle, pl: Handle)
  {
    && |descSets| == |prefix| + |order| && descSets[..|prefix|] == prefix
    && |log| >= |log0| && log[..|log0|] == log0
    && Increasing(pos) && Records(sets, order, descSets[|prefix|..], pos, |log0|, layouts, table, log, buffer, pl)
  }

  /** Once every set is picked, the trace covers each set of the binder exactly once. */
  /** A recorded trace survives further layout creations and further calls. */
  lemma BindTraceKept(sets: Sets, order: seq<nat>, pos: seq<nat>, prefix: seq<(Handle, Handle)>, descSets: seq<(Handle, Handle)>,
                      layouts: map<SetLayout, Handle>, layouts': map<SetLayout, Handle>, table: map<nat, Handle>,
                      log0: seq<NativeCall>, log: seq<NativeCall>, log': seq<NativeCall>, buffer: Handle, pl: Handle)
    requires BindTrace(sets, order, pos, prefix, descSets, layouts, table, log0, log, buffer, pl)
    requires Grew(layouts, layouts') && |log'| >= |log| && log'[..|log|] == log
    ensures BindTrace(sets, order, pos, prefix, descSets, layouts', table, log0, log', buffer, pl)
  {
    PrefixTrans(log0, log, log');
    var rest := descSets[|prefix|..];
    forall k | 0 <= k < |order|
      ensures SetRecorded(sets, order[k], rest[k], layouts', table, log', pos[k], buffer, pl)
    {
      SetRecordedKept(sets, order[k], rest[k], layouts, layouts', table, log, log', pos[k], buffer, pl);
    }
  }

  /** The trace after one more set: extended when the set was bound, and otherwise kept. */
  lemma BindTraceNext(sets: Sets, s: nat, bound: bool, pair: (Handle, Handle), order: seq<nat>, pos: seq<nat>,
                      prefix: seq<(Handle, Handle)>, pairs: seq<(Handle, Handle)>,
                      layouts: map<SetLayout, Handle>, layouts': map<SetLayout, Handle>, table: map<nat, Handle>,
                      log0: seq<NativeCall>, log: seq<NativeCall>, log': seq<NativeCall>, buffer: Handle, pl: Handle)
    requires BindTrace(sets, order, pos, prefix, pairs, layouts, table, log0, log, buffer, pl)
    requires Grew(layouts, layouts') && |log'| >= |log| && log'[..|log|] == log
    requires bound ==> |log'| >= |log| + 2 && SetRecorded(sets, s, pair, layouts', table, log', |log'| - 2, buffer, pl)
    ensures |log'| >= |log0| && log'[..|log0|] == log0
    ensures bound ==> BindTrace(sets, order + [s], pos + [|log'| - 2], prefix, pairs + [pair], layouts', table, log0, log', buffer, pl)
    ensures !bound ==> BindTrace(sets, order, pos, prefix, pairs, layouts', table, log0, log', buffer, pl)
  {
    PrefixTrans(log0, log, log');
    if bound {
      assert (pairs + [pair])[..|pairs|] == pairs;
      BindTraceStep(sets, s, order, pos, prefix, pairs, pairs + [pair], layouts, layouts', table, log0, log, log', buffer, pl);
    } else {
      BindTraceKept(sets, order, pos, prefix, pairs, layouts, layouts', table, log0, log, log', buffer, pl);
    }
  }

  /** A recorded trace, written out: the pairs after the prefix and the positions of their calls. */
  lemma BindTraceExplicit(sets: Sets, order: seq<nat>, pos: seq<nat>, prefix: seq<(Handle, Handle)>,
                          descSets: seq<(Handle, Handle)>, layouts: map<SetLayout, Handle>, table: map<nat, Handle>,
                          log0: seq<NativeCall>, log: seq<NativeCall>, buffer: Handle, pl: Handle)
    requires BindTrace(sets, order, pos, prefix, descSets, layouts, table, log0, log, buffer, pl)
    ensures var n := |prefix|;
      && |descSets| == n + |order| && descSets[..n] == prefix
      && |pos| == |order| && (forall i, j :: 0 <= i < j < |pos| ==> pos[i] + 1 < pos[j])
      && forall k :: 0 <= k < |order| ==>
           |log0| <= pos[k] && SetRecorded(sets, order[k], descSets[n + k], layouts, table, log, pos[k], buffer, pl)
  {
    forall k | 0 <= k < |order|
      ensures |log0| <= pos[k] && SetRecorded(sets, order[k], descSets[|prefix| + k], layouts, table, log, pos[k], buffer, pl)
    {
      assert descSets[|prefix|..][k] == descSets[|prefix| + k];
    }
  }

  /** A set still to visit is not in the order, and the order lists distinct keys. */
  lemma PickedPartial(keys: set<nat>, done: set<nat>, todo: set<nat>, order: seq<nat>, s: nat)
    requires Picked(keys, done, todo, order) && s in todo
    ensures s !in order
    ensures (forall k :: 0 <= k < |order| ==> order[k] in keys)
    ensures (forall i, j :: 0 <= i < j < |order| ==> order[i] != order[j])
  {
  }

  lemma BindTraceDone(sets: Sets, done: set<nat>, order: seq<nat>, pos: seq<nat>, prefix: seq<(Handle, Handle)>,
                      descSets: seq<(Handle, Handle)>, layouts: map<SetLayout, Handle>, table: map<nat, Handle>,
                      log0: seq<NativeCall>, log: seq<NativeCall>, buffer: Handle, pl: Handle)
    requires Picked(sets.Keys, done, {}, order)
    requires BindTrace(sets, order, pos, prefix, descSets, layouts, table, log0, log, buffer, pl)
    ensures forall s :: s in sets ==> Resolvable(sets[s], table)
    ensures |order| == |sets| && (forall s :: s in sets ==> s in order)
  {
    assert done == sets.Keys;
    forall s | s in sets
      ensures Resolvable(sets[s], table)
    {
      var k :| 0 <= k < |order| && order[k] == s;
      assert SetRecorded(sets, order[k], descSets[|prefix|..][k], layouts, table, log, pos[k], buffer, pl);
    }
  }

  lemma BindTraceStep(sets: Sets, s: nat, order: seq<nat>, pos: seq<nat>,
                      prefix: seq<(Handle, Handle)>, descSets: seq<(Handle, Handle)>, descSets': seq<(Handle, Handle)>,
                      layouts: map<SetLayout, Handle>, layouts': map<SetLayout, Handle>, table: map<nat, Handle>,
                      log0: seq<NativeCall>, log: seq<NativeCall>, log': seq<NativeCall>, buffer: Handle, pl: Handle)
    requires BindTrace(sets, order, pos, prefix, descSets, layouts, table, log0, log, buffer, pl)
    requires |descSets'| == |descSets| + 1 && descSets'[..|descSets|] == descSets
    requires Grew(layouts, layouts') && |log'| >= |log| + 2 && log'[..|log|] == log
    requires SetRecorded(sets, s, descSets'[|descSets|], layouts', table, log', |log'| - 2, buffer, pl)
    ensures BindTrace(sets, order + [s], pos + [|log'| - 2], prefix, descSets', layouts', table, log0, log', buffer, pl)
  {
    PrefixTrans(log0, log, log');
    DropAppend(descSets, descSets', |prefix|);
    RecordsStep(sets, order, descSets[|prefix|..], pos, |log0|, layouts, layouts', table, log, log', buffer, pl,
                s, descSets'[|descSets|]);
  }

  /**
   * Progress of the layout half of `create_descriptor_set_layout`: the set
   * numbers of `used` in `done` (the others are in `todo`), taken in
   * `order`, each contributed the cached layout of its set's structure.
   */
  predicate LayoutProgress(sets: Sets, used: set<nat>, done: set<nat>, todo: set<nat>, order: seq<nat>,
                           handles: seq<Handle>, layouts: map<SetLayout, Handle>)
  {
    && done + todo == used && done !! todo
    && Enumerates(order, done)
    && |handles| == |order|
    && forall k :: 0 <= k < |order| ==> LayoutCached(sets, order[k], handles[k], layouts)
  }

  /** When nothing is left to do, every used set number exists and was enumerated. */
  lemma LayoutProgressDone(sets: Sets, used: set<nat>, done: set<nat>, order: seq<nat>,
                           handles: seq<Handle>, layouts: map<SetLayout, Handle>)
    requires LayoutProgress(sets, used, done, {}, order, handles, layouts)
    ensures used <= sets.Keys && |order| == |used| && (forall s :: s in used ==> s in order)
  {
    forall s | s in done ensures s in sets {
      var k :| 0 <= k < |order| && order[k] == s;
      assert LayoutCached(sets, order[k], handles[k], layouts);
    }
  }

  /** Set `s` exists and `h` is the cached layout of its structure. */
  predicate LayoutCached(sets: Sets, s: nat, h: Handle, layouts: map<SetLayout, Handle>)
  {
    s in sets && LayoutOf(sets[s]) in layouts && h == layouts[LayoutOf(sets[s])]
  }

  /** `order` lists the elements of `done`, as many as there are. */
  predicate Enumerates(order: seq<nat>, done: set<nat>)
  {
    |order| == |done| && (forall k :: 0 <= k < |order| ==> order[k] in done) && (forall s :: s in done ==> s in order)
  }

  lemma EnumeratesStep(order: seq<nat>, done: set<nat>, s: nat)
    requires Enumerates(order, done) && s !in done
    ensures Enumerates(order + [s], done + {s})
  {
    forall x | x in done + {s}
      ensures x in order + [s]
    {
      if x != s {
        assert x in order;
      }
    }
  }

  lemma CachedStep(sets: Sets, order: seq<nat>, handles: seq<Handle>, s: nat,
                   layouts: map<SetLayout, Handle>, layouts': map<SetLayout, Handle>)
    requires |handles| == |order|
    requires forall k :: 0 <= k < |order| ==> LayoutCached(sets, order[k], handles[k], layouts)
    requires Grew(layouts, layouts')
    requires s in sets && LayoutOf(sets[s]) in layouts'
    ensures forall k :: 0 <= k < |order| + 1 ==>
      LayoutCached(sets, (order + [s])[k], (handles + [layouts'[LayoutOf(sets[s])]])[k], layouts')
  {
    forall k | 0 <= k < |order| + 1
      ensures LayoutCached(sets, (order + [s])[k], (handles + [layouts'[LayoutOf(sets[s])]])[k], layouts')
    {
      if k < |order| {
        assert LayoutCached(sets, order[k], handles[k], layouts);
      }
    }
  }

  lemma LayoutProgressStep(sets: Sets, used: set<nat>, done: set<nat>, todo: set<nat>, s: nat, order: seq<nat>,
                           handles: seq<Handle>, layouts: map<SetLayout, Handle>, layouts': map<SetLayout, Handle>)
    requires LayoutProgress(sets, used, done, todo, order, handles, layouts) && s in todo && s in sets
    requires Grew(layouts, layouts')
    requires LayoutOf(sets[s]) in layouts'
    ensures LayoutProgress(sets, used, done + {s}, todo - {s}, order + [s], handles + [layouts'[LayoutOf(sets[s])]], layouts')
  {
    MoveDone(used, done, todo, s);
    EnumeratesStep(order, done, s);
    CachedStep(sets, order, handles, s, layouts, layouts');
  }

  /** Moving one element from `todo` to `done` keeps them a partition of `used`. */
  lemma MoveDone(used: set<nat>, done: set<nat>, todo: set<nat>, s: nat)
    requires done + todo == used && done !! todo && s in todo
    ensures (done + {s}) + (todo - {s}) == used && (done + {s}) !! (todo - {s}) && s !in done
  {
  }

  // ---------------------------------------------------------------------------
  // Command lists

  class CommandList {
    const dev: VulkanDevice
    const buffer: Handle
    var finalized: bool
    var currentPipeline: Pipeline?
    var currentRenderpassDesc: RenderPassDesc
    var currentRenderpass: Handle
    var currentFramebuffer: Handle
    var viewportWidth: U32
    var viewportHeight: U32
    /** The (layout, set) pairs this list allocated, released when the list is. */
    var descSets: seq<(Handle, Handle)>

    /** The render-pass key, render pass, framebuffer and viewport are as before. */
    twostate predicate PassUnchanged()
      reads this
    {
      && currentRenderpassDesc == old(currentRenderpassDesc)
      && currentRenderpass == old(currentRenderpass) && currentFramebuffer == old(currentFramebuffer)
      && viewportWidth == old(viewportWidth) && viewportHeight == old(viewportHeight)
    }

    /** Everything but the finalized flag is as before. */
    twostate predicate RecordingUnchanged()
      reads this
    {
      currentPipeline == old(currentPipeline) && PassUnchanged() && descSets == old(descSets)
    }

    /** `VulkanCommandList(device, buffer)`: begins recording. */
    constructor (dev: VulkanDevice, buffer: Handle)
      modifies dev.driver
      ensures this.dev == dev && this.buffer == buffer
      ensures !finalized && currentPipeline == null && descSets == []
      ensures currentRenderpass == NullHandle && currentFramebuffer == NullHandle
      ensures dev.driver.next == old(dev.driver.next)
      ensures dev.driver.log == old(dev.driver.log) + [BeginCommandBuffer(buffer)]
    {
      this.dev := dev;
      this.buffer := buffer;
      finalized := false;
      currentPipeline := null;
      currentRenderpassDesc := RenderPassDesc([], Undefined, false);
      currentRenderpass := NullHandle;
      currentFramebuffer := NullHandle;
      viewportWidth := 0;
      viewportHeight := 0;
      descSets := [];
      new;
      dev.driver.Call(BeginCommandBuffer(buffer));
    }

    /** `finalize`: ends recording the first time only, and returns the buffer. */
    method Finalize() returns (b: Handle)
      modifies this, dev.driver
      ensures b == buffer && finalized && RecordingUnchanged()
      ensures dev.driver.next == old(dev.driver.next)
      ensures dev.driver.log == old(dev.driver.log) + (if old(finalized) then [] else [EndCommandBuffer(buffer)])
    {
      if !finalized {
        dev.driver.Call(EndCommandBuffer(buffer));
        finalized := true;
      }
      return buffer;
    }

    /**
     * `bind_pipeline`: a graphics pipeline is specialised for the current
     * render pass and bound with viewport, scissor and line width; a compute
     * pipeline is bound directly. Both are bound at the COMPUTE bind point.
     */
    method BindPipeline(p: Pipeline)
      requires p.Valid() && p.driver == dev.driver
      modifies this, p, dev.driver
      ensures p.Valid() && currentPipeline == p && finalized == old(finalized)
      ensures currentRenderpassDesc == old(currentRenderpassDesc) && currentRenderpass == old(currentRenderpass)
      ensures currentFramebuffer == old(currentFramebuffer) && descSets == old(descSets)
      ensures viewportWidth == old(viewportWidth) && viewportHeight == old(viewportHeight)
      ensures p.setLayouts == old(p.setLayouts) && p.pipelineLayout == old(p.pipelineLayout) && p.pipeline == old(p.pipeline)
      ensures !p.isGraphics ==>
        && p.graphicsPipelines == old(p.graphicsPipelines) && dev.driver.next == old(dev.driver.next)
        && dev.driver.log == old(dev.driver.log) + [CmdBindPipeline(buffer, ComputeBindPoint, p.pipeline)]
      ensures p.isGraphics ==>
        && currentRenderpass in p.graphicsPipelines
        && var gp := p.graphicsPipelines[currentRenderpass];
        var binds := [CmdBindPipeline(buffer, ComputeBindPoint, gp), CmdSetViewport(buffer, viewportWidth, viewportHeight),
                      CmdSetScissor(buffer, viewportWidth, viewportHeight), CmdSetLineWidth(buffer)];
        && (currentRenderpass in old(p.graphicsPipelines) ==>
              && gp == old(p.graphicsPipelines)[currentRenderpass] && p.graphicsPipelines == old(p.graphicsPipelines)
              && dev.driver.next == old(dev.driver.next) && dev.driver.log == old(dev.driver.log) + binds)
        && (currentRenderpass !in old(p.graphicsPipelines) ==>
              && gp == old(dev.driver.next) + 1 && p.graphicsPipelines == old(p.graphicsPipelines)[currentRenderpass := gp]
              && dev.driver.next == gp && dev.driver.log == old(dev.driver.log)
                   + [Created(GraphicsPipelineObject(currentRenderpass, |currentRenderpassDesc.colorAttachments|), gp)] + binds)
    {
      if p.isGraphics {
        var vkPipeline := p.GraphicsPipeline(currentRenderpassDesc, currentRenderpass);
        dev.driver.Call(CmdBindPipeline(buffer, ComputeBindPoint, vkPipeline));
        dev.driver.Call(CmdSetViewport(buffer, viewportWidth, viewportHeight));
        dev.driver.Call(CmdSetScissor(buffer, viewportWidth, viewportHeight));
        dev.driver.Call(CmdSetLineWidth(buffer));
      } else {
        dev.driver.Call(CmdBindPipeline(buffer, ComputeBindPoint, p.pipeline));
      }
      currentPipeline := p;
    }

    /**
     * One iteration of `bind_resources`, up to the bookkeeping: the set's
     * layout (cached or new), a descriptor set from its pool, the descriptor
     * writes, and the binding at the COMPUTE bind point with the current
     * pipeline's layout. Returns the (layout, set) pair the list remembers.
     */
    method BindSet(binder: ResourceBinder, s: nat) returns (r: Result<(), DeviceError>, pair: (Handle, Handle))
      requires dev.Valid() && currentPipeline != null && s in binder.sets
      modifies dev, dev.driver
      ensures dev.Valid() && dev.RestUnchanged()
      ensures LayoutOf(binder.sets[s]) in dev.descSetLayouts && Grew(old(dev.descSetLayouts), dev.descSetLayouts)
      ensures dev.descSetLayouts == old(dev.descSetLayouts)[LayoutOf(binder.sets[s]) := pair.0]
      ensures pair.0 in dev.descSetPools
      ensures dev.descSetPools == old(dev.descSetPools)[pair.0 := dev.descSetPools[pair.0].(freeSets := PopBack(FreeSets(old(dev.descSetPools), pair.0)).1)]
      ensures PopBack(FreeSets(old(dev.descSetPools), pair.0)).0.Some? ==> pair.1 == PopBack(FreeSets(old(dev.descSetPools), pair.0)).0.value
      ensures PopBack(FreeSets(old(dev.descSetPools), pair.0)).0.None? ==>
        var log, created := dev.driver.log, Created(DescriptorSetObject(dev.descSetPools[pair.0].pool, pair.0), pair.1);
        && pair.1 == dev.driver.next
        && (r.Ok? ==> |log| >= 3 && log[|log| - 3] == created)
        && (r.Err? ==> |log| >= 1 && log[|log| - 1] == created)
      ensures |dev.driver.log| >= |old(dev.driver.log)| && dev.driver.log[..|old(dev.driver.log)|] == old(dev.driver.log)
      ensures r.Ok? <==> Resolvable(binder.sets[s], dev.BufferTable())
      ensures r.Ok? ==> var log := dev.driver.log;
        && |log| >= |old(dev.driver.log)| + 2
        && SetRecorded(binder.sets, s, pair, dev.descSetLayouts, dev.BufferTable(), log, |log| - 2,
                       buffer, currentPipeline.pipelineLayout)
    {
      var layout, descSet := dev.AcquireDescSet(LayoutOf(binder.sets[s]));
      pair := (layout, descSet);
      ghost var log := dev.driver.log;
      r := WriteAndBind(binder, s, descSet);
      PrefixTrans(old(dev.driver.log), log, dev.driver.log);
      if r.Ok? && |log| > 0 {
        assert dev.driver.log[|dev.driver.log| - 3] == log[|log| - 1];
      }
    }

    /**
     * The descriptor writes of set `s` into `descSet`, then the binding of
     * `descSet` as set 0 at the COMPUTE bind point.
     */
    method WriteAndBind(binder: ResourceBinder, s: nat, descSet: Handle) returns (r: Result<(), DeviceError>)
      requires dev.Valid() && currentPipeline != null && s in binder.sets
      modifies dev.driver
      ensures dev.Valid() && dev.driver.next == old(dev.driver.next)
      ensures r.Ok? <==> Resolvable(binder.sets[s], dev.BufferTable())
      ensures r.Err? ==> dev.driver.log == old(dev.driver.log)
      ensures r.Ok? ==> var log, n := dev.driver.log, |old(dev.driver.log)|;
        && |log| == n + 2 && log[..n] == old(dev.driver.log)
        && BoundAt(log, n, buffer, currentPipeline.pipelineLayout, descSet, binder.sets[s], dev.BufferTable())
    {
      var update := binder.WriteToSet(s, descSet, dev.BufferTable());
      if update.Err? {
        return Err(BinderFailed(update.error));
      }
      dev.Record([UpdateDescriptorSets(update.value),
                  CmdBindDescriptorSets(buffer, ComputeBindPoint, currentPipeline.pipelineLayout, 0, descSet)]);
      return Ok(());
    }

    /**
     * `bind_resources`: binds every set of the binder, in the binder's
     * (unordered) iteration order `order`, and remembers each (layout, set)
     * pair; `pos` gives where in the log each set's writes and binding are.
     * Fails when a bound buffer belongs to no allocation of the device.
     */
    method BindResources(binder: ResourceBinder) returns (r: Result<(), DeviceError>, ghost order: seq<nat>, ghost pos: seq<nat>)
      requires dev.Valid() && currentPipeline != null
      modifies this, dev, dev.driver
      ensures dev.Valid() && dev.RestUnchanged() && Grew(old(dev.descSetLayouts), dev.descSetLayouts)
      ensures currentPipeline == old(currentPipeline) && finalized == old(finalized) && PassUnchanged()
      ensures |dev.driver.log| >= |old(dev.driver.log)| && dev.driver.log[..|old(dev.driver.log)|] == old(dev.driver.log)
      ensures r.Ok? <==> forall s :: s in binder.sets ==> Resolvable(binder.sets[s], dev.BufferTable())
      ensures r.Ok? ==> |order| == |binder.sets| && (forall s :: s in binder.sets ==> s in order)
      ensures r.Err? ==> exists s :: s in binder.sets && s !in order && !Resolvable(binder.sets[s], dev.BufferTable())
      ensures (forall k :: 0 <= k < |order| ==> order[k] in binder.sets)
      ensures (forall i, j :: 0 <= i < j < |order| ==> order[i] != order[j])
      ensures var n := |old(descSets)|;
        && |descSets| == n + |order| && descSets[..n] == old(descSets)
        && |pos| == |order| && (forall i, j :: 0 <= i < j < |pos| ==> pos[i] + 1 < pos[j])
        && forall k :: 0 <= k < |order| ==>
             && |old(dev.driver.log)| <= pos[k]
             && SetRecorded(binder.sets, order[k], descSets[n + k], dev.descSetLayouts, dev.BufferTable(),
                            dev.driver.log, pos[k], buffer, currentPipeline.pipelineLayout)
    {
      r, order, pos := BindEachSet(binder);
      BindTraceExplicit(binder.sets, order, pos, old(descSets), descSets, dev.descSetLayouts, dev.BufferTable(),
                        old(dev.driver.log), dev.driver.log, buffer, currentPipeline.pipelineLayout);
      if r.Ok? {
        BindTraceDone(binder.sets, binder.sets.Keys, order, pos, old(descSets), descSets, dev.descSetLayouts, dev.BufferTable(),
                      old(dev.driver.log), dev.driver.log, buffer, currentPipeline.pipelineLayout);
      }
    }

    /** The loop of `bind_resources`, stopping at the first set that does not resolve. */
    method BindEachSet(binder: ResourceBinder) returns (r: Result<(), DeviceError>, ghost order: seq<nat>, ghost pos: seq<nat>)
      requires dev.Valid() && currentPipeline != null
      modifies this, dev, dev.driver
      ensures dev.Valid() && dev.RestUnchanged() && Grew(old(dev.descSetLayouts), dev.descSetLayouts)
      ensures currentPipeline == old(currentPipeline) && finalized == old(finalized) && PassUnchanged()
      ensures |dev.driver.log| >= |old(dev.driver.log)| && dev.driver.log[..|old(dev.driver.log)|] == old(dev.driver.log)
      ensures r.Err? ==>
        && (exists s :: s in binder.sets && s !in order && !Resolvable(binder.sets[s], dev.BufferTable()))
        && (forall k :: 0 <= k < |order| ==> order[k] in binder.sets)
        && (forall i, j :: 0 <= i < j < |order| ==> order[i] != order[j])
      ensures r.Ok? ==> Picked(binder.sets.Keys, binder.sets.Keys, {}, order)
      ensures BindTrace(binder.sets, order, pos, old(descSets), descSets, dev.descSetLayouts, dev.BufferTable(),
                        old(dev.driver.log), dev.driver.log, buffer, currentPipeline.pipelineLayout)
    {
      var todo := binder.sets.Keys;
      ghost var done: set<nat> := {};
      ghost var sets, table, pl := binder.sets, dev.BufferTable(), currentPipeline.pipelineLayout;
      var pairs := descSets;
      order, pos, r := [], [], Ok(());
      while todo != {}
        modifies dev, dev.driver
        invariant dev.Valid() && dev.RestUnchanged() && Grew(old(dev.descSetLayouts), dev.descSetLayouts)
        invariant dev.BufferTable() == table && r.Ok?
        invariant Picked(sets.Keys, done, todo, order)
        invariant BindTrace(sets, order, pos, old(descSets), pairs, dev.descSetLayouts, table, old(dev.driver.log), dev.driver.log, buffer, pl)
        decreases |todo|
      {
        var s := Pick(todo);
        ghost var p, layouts := 0, dev.descSetLayouts;
        var pair;
        r, pair, p := BindNext(binder, s, pairs, order, pos, old(descSets), old(dev.driver.log), sets, table, pl);
        GrewTrans(old(dev.descSetLayouts), layouts, dev.descSetLayouts);
        if r.Err? {
          PickedPartial(sets.Keys, done, todo, order, s);
          break;
        }
        PickedStep(sets.Keys, done, todo, order, s);
        pairs := pairs + [pair];
        order, pos := order + [s], pos + [p];
        todo := todo - {s};
        done := done + {s};
      }
      descSets := pairs;
    }

    /**
     * One iteration of the loop of `bind_resources`: set `s` is bound (see
     * `BindSet`) and recorded after the sets of `order`.
     */
    method BindNext(binder: ResourceBinder, s: nat, ghost pairs: seq<(Handle, Handle)>, ghost order: seq<nat>, ghost pos: seq<nat>,
                    ghost prefix: seq<(Handle, Handle)>, ghost log0: seq<NativeCall>,
                    ghost sets: Sets, ghost table: map<nat, Handle>, ghost pl: Handle)
      returns (r: Result<(), DeviceError>, pair: (Handle, Handle), ghost p: nat)
      requires dev.Valid() && currentPipeline != null && s in binder.sets
      requires binder.sets == sets && dev.BufferTable() == table && currentPipeline.pipelineLayout == pl
      requires BindTrace(sets, order, pos, prefix, pairs, dev.descSetLayouts, table, log0, dev.driver.log, buffer, pl)
      modifies dev, dev.driver
      ensures dev.Valid() && dev.RestUnchanged() && Grew(old(dev.descSetLayouts), dev.descSetLayouts)
      ensures dev.BufferTable() == table
      ensures |dev.driver.log| >= |log0| && dev.driver.log[..|log0|] == log0
      ensures r.Ok? <==> Resolvable(sets[s], table)
      ensures r.Ok? ==> BindTrace(sets, order + [s], pos + [p], prefix, pairs + [pair], dev.descSetLayouts,
                                  table, log0, dev.driver.log, buffer, pl)
      ensures r.Err? ==> BindTrace(sets, order, pos, prefix, pairs, dev.descSetLayouts, table, log0, dev.driver.log, buffer, pl)
    {
      ghost var layouts, log := dev.descSetLayouts, dev.driver.log;
      r, pair := BindSet(binder, s);
      p := if r.Ok? then |dev.driver.log| - 2 else 0;
      BindTraceNext(sets, s, r.Ok?, pair, order, pos, prefix, pairs, layouts, dev.descSetLayouts,
                    table, log0, log, dev.driver.log, buffer, pl);
    }

    /** The colour attachments and views `begin_renderpass` looks up, in order. */
    method ColorAttachmentsOf(colors: seq<DeviceAllocation>, clears: seq<bool>)
      returns (r: Result<(seq<ColorAttachment>, seq<Handle>), DeviceError>)
      requires |clears| == |colors|
      ensures r.Ok? <==> forall k :: 0 <= k < |colors| ==> colors[k].allocId in dev.imageAllocations
      ensures r.Err? ==> r.error == UnknownAlloc
      ensures r.Ok? ==> var (atts, views) := r.value;
        && |atts| == |views| == |colors|
        && (forall k :: 0 <= k < |colors| ==> atts[k] == ColorAttachment(dev.imageAllocations[colors[k].allocId].format, clears[k]))
        && (forall k :: 0 <= k < |colors| ==> views[k] == dev.imageAllocations[colors[k].allocId].view)
    {
      var atts: seq<ColorAttachment> := [];
      var views: seq<Handle> := [];
      for i := 0 to |colors|
        invariant |atts| == |views| == i
        invariant forall k :: 0 <= k < i ==> colors[k].allocId in dev.imageAllocations
        invariant forall k :: 0 <= k < i ==> atts[k] == ColorAttachment(dev.imageAllocations[colors[k].allocId].format, clears[k])
        invariant forall k :: 0 <= k < i ==> views[k] == dev.imageAllocations[colors[k].allocId].view
      {
        var image := dev.GetVkImage(colors[i].allocId);
        if image.Err? {
          return Err(image.error);
        }
        atts := atts + [ColorAttachment(image.value.format, clears[i])];
        views := views + [image.value.view];
      }
      return Ok((atts, views));
    }

    /**
     * The second half of `begin_renderpass`: the render pass for the current
     * key, a framebuffer over the views sized to the render area (the
     * differences converted to unsigned 32-bit), the viewport set to the same
     * size, and the pass begun with one clear value per attachment.
     */
    method OpenPass(x0: int, y0: int, x1: int, y1: int, views: seq<Handle>)
      requires dev.Valid()
      modifies this, dev, dev.driver
      ensures dev.Valid() && dev.MemoryUnchanged() && dev.CommandBuffersUnchanged() && dev.DescriptorSetsUnchanged()
      ensures dev.PassCachesGrew()
      ensures currentRenderpassDesc == old(currentRenderpassDesc)
      ensures currentRenderpassDesc in dev.renderpassPools && currentRenderpass == dev.renderpassPools[currentRenderpassDesc]
      ensures viewportWidth == ToU32(x1 - x0) && viewportHeight == ToU32(y1 - y0)
      ensures var fbDesc := FramebufferDesc(views, viewportWidth, viewportHeight, currentRenderpass);
        fbDesc in dev.framebufferPools && currentFramebuffer == dev.framebufferPools[fbDesc]
      ensures |dev.driver.log| > |old(dev.driver.log)| && dev.driver.log[..|old(dev.driver.log)|] == old(dev.driver.log)
      ensures dev.driver.log[|dev.driver.log| - 1] ==
        CmdBeginRenderPass(buffer, currentRenderpass, currentFramebuffer, x0, y0, viewportWidth, viewportHeight, |views|)
      ensures currentPipeline == old(currentPipeline) && descSets == old(descSets) && finalized == old(finalized)
    {
      var width, height := ToU32(x1 - x0), ToU32(y1 - y0);
      var rp, fb := dev.PassObjects(currentRenderpassDesc, views, width, height);
      dev.Record([CmdBeginRenderPass(buffer, rp, fb, x0, y0, width, height, |views|)]);
      currentRenderpass, currentFramebuffer := rp, fb;
      viewportWidth, viewportHeight := width, height;
    }

    /**
     * `begin_renderpass`: records the render-pass key (colour formats with
     * their clear flags, the depth format or UNDEFINED, the depth clear flag)
     * and opens the pass over the attachments' views, colour views first.
     * Fails when an attachment is not an imported image.
     */
    method BeginRenderpass(x0: int, y0: int, x1: int, y1: int, colors: seq<DeviceAllocation>, clears: seq<bool>,
                           depth: Option<DeviceAllocation>, depthClear: bool) returns (r: Result<(), DeviceError>)
      requires dev.Valid() && |clears| == |colors|
      modifies this, dev, dev.driver
      ensures dev.Valid() && dev.MemoryUnchanged() && dev.CommandBuffersUnchanged() && dev.DescriptorSetsUnchanged()
      ensures dev.PassCachesGrew()
      ensures r.Ok? <==>
        && (depth.Some? ==> depth.value.allocId in old(dev.imageAllocations))
        && (forall k :: 0 <= k < |colors| ==> colors[k].allocId in old(dev.imageAllocations))
      ensures r.Err? ==>
        && dev.driver.log == old(dev.driver.log) && dev.driver.next == old(dev.driver.next) && dev.PassCachesUnchanged()
        && currentRenderpass == old(currentRenderpass) && currentFramebuffer == old(currentFramebuffer)
      ensures r.Ok? ==> var images := dev.imageAllocations;
        && |currentRenderpassDesc.colorAttachments| == |colors|
        && (forall k :: 0 <= k < |colors| ==>
              currentRenderpassDesc.colorAttachments[k] == ColorAttachment(images[colors[k].allocId].format, clears[k]))
        && currentRenderpassDesc.depthAttachment == (if depth.Some? then images[depth.value.allocId].format else Undefined)
        && currentRenderpassDesc.clearDepth == depthClear
        && currentRenderpassDesc in dev.renderpassPools && currentRenderpass == dev.renderpassPools[currentRenderpassDesc]
        && viewportWidth == ToU32(x1 - x0) && viewportHeight == ToU32(y1 - y0)
        && var fbDesc := FramebufferDesc(
             seq(|colors|, k requires 0 <= k < |colors| => images[colors[k].allocId].view)
               + (if depth.Some? then [images[depth.value.allocId].view] else []),
             viewportWidth, viewportHeight, currentRenderpass);
        && fbDesc in dev.framebufferPools && currentFramebuffer == dev.framebufferPools[fbDesc]
        && |dev.driver.log| > |old(dev.driver.log)| && dev.driver.log[..|old(dev.driver.log)|] == old(dev.driver.log)
        && dev.driver.log[|dev.driver.log| - 1] == CmdBeginRenderPass(buffer, currentRenderpass, currentFramebuffer,
             x0, y0, viewportWidth, viewportHeight, |colors| + (if depth.Some? then 1 else 0))
      ensures currentPipeline == old(currentPipeline) && descSets == old(descSets) && finalized == old(finalized)
    {
      currentRenderpassDesc := currentRenderpassDesc.(colorAttachments := [], clearDepth := depthClear);
      var depthView: seq<Handle> := [];
      if depth.Some? {
        var image := dev.GetVkImage(depth.value.allocId);
        if image.Err? {
          return Err(image.error);
        }
        currentRenderpassDesc := currentRenderpassDesc.(depthAttachment := image.value.format);
        depthView := [image.value.view];
      } else {
        currentRenderpassDesc := currentRenderpassDesc.(depthAttachment := Undefined);
      }
      var collected := ColorAttachmentsOf(colors, clears);
      if collected.Err? {
        return Err(collected.error);
      }
      var (atts, views) := collected.value;
      currentRenderpassDesc := currentRenderpassDesc.(colorAttachments := atts);
      ghost var images := dev.imageAllocations;
      assert views == seq(|colors|, k requires 0 <= k < |colors| => images[colors[k].allocId].view);
      OpenPass(x0, y0, x1, y1, views + depthView);
      return Ok(());
    }

    /**
     * `~VulkanCommandList`: returns every descriptor set it allocated to its
     * pool, then hands itself to `dealloc_command_list`.
     */
    method Release() returns (r: Result<(), DeviceError>)
      requires dev.Valid()
      modifies this, dev, dev.driver
      ensures dev.Valid() && dev.MemoryUnchanged() && dev.PassCachesUnchanged()
      ensures dev.descSetLayouts == old(dev.descSetLayouts) && dev.inFlightDescSets == old(dev.inFlightDescSets)
      ensures dev.deallocDescSets == old(dev.deallocDescSets) && dev.inFlightCmdLists == old(dev.inFlightCmdLists)
      ensures RecordingUnchanged() && dev.driver.next == old(dev.driver.next)
      ensures r.Ok? <==> forall k :: 0 <= k < |descSets| ==> descSets[k].0 in old(dev.descSetPools)
      ensures r.Err? ==> finalized == old(finalized) && dev.CommandBuffersUnchanged() && dev.driver.log == old(dev.driver.log)
      ensures r.Err? ==> exists j ::
        && 0 <= j < |descSets| && descSets[j].0 !in old(dev.descSetPools)
        && (forall k :: 0 <= k < j ==> descSets[k].0 in old(dev.descSetPools))
        && dev.descSetPools == ReturnSets(old(dev.descSetPools), descSets, j)
      ensures r.Ok? ==>
        && finalized
        && dev.descSetPools == ReturnSets(old(dev.descSetPools), descSets, |descSets|)
        && dev.driver.log == old(dev.driver.log) + (if old(finalized) then [] else [EndCommandBuffer(buffer)])
        && (buffer !in dev.inFlightCmdLists ==>
              dev.freeCmdBuffers == old(dev.freeCmdBuffers) + [buffer] && dev.deallocCmdLists == old(dev.deallocCmdLists))
        && (buffer in dev.inFlightCmdLists ==>
              dev.deallocCmdLists == old(dev.deallocCmdLists) + [buffer] && dev.freeCmdBuffers == old(dev.freeCmdBuffers))
    {
      r := dev.ReturnListSets(descSets);
      if r.Err? {
        return;
      }
      dev.DeallocCommandList(this);
    }

    /** `end_renderpass`: ends the pass and forgets the current render pass and framebuffer. */
    method EndRenderpass()
      modifies this, dev.driver
      ensures currentRenderpass == NullHandle && currentFramebuffer == NullHandle
      ensures currentPipeline == old(currentPipeline) && currentRenderpassDesc == old(currentRenderpassDesc)
      ensures viewportWidth == old(viewportWidth) && viewportHeight == old(viewportHeight)
      ensures descSets == old(descSets) && finalized == old(finalized)
      ensures dev.driver.next == old(dev.driver.next)
      ensures dev.driver.log == old(dev.driver.log) + [CmdEndRenderPass(buffer)]
    {
      dev.driver.Call(CmdEndRenderPass(buffer));
      currentRenderpass := NullHandle;
      currentFramebuffer := NullHandle;
    }
  }

  // ---------------------------------------------------------------------------
  // Pipelines

  class Pipeline {
    const driver: NativeDriver
    const binder: ResourceBinder
    /** Whether the pipeline has a graphics template (`is_graphics`). */
    const isGraphics: bool
    var setLayouts: seq<Handle>
    var pipelineLayout: Handle
    var pipeline: Handle
    /** Graphics pipelines specialised per render pass. */
    var graphicsPipelines: map<Handle, Handle>
    /** The template's colour-attachment count and render pass, set only while a pipeline is created. */
    var templateAttachmentCount: nat
    var templateRenderPass: Handle

    /** Between calls the template names no render pass and no attachments. */
    predicate Valid()
      reads this
    {
      templateAttachmentCount == 0 && templateRenderPass == NullHandle
    }

    constructor (driver: NativeDriver, isGraphics: bool)
      ensures Valid() && fresh(binder)
      ensures this.driver == driver && this.isGraphics == isGraphics
      ensures binder.sets == map[] && !binder.locked
      ensures setLayouts == [] && graphicsPipelines == map[]
      ensures pipelineLayout == NullHandle && pipeline == NullHandle
    {
      this.driver := driver;
      this.isGraphics := isGraphics;
      binder := new ResourceBinder();
      setLayouts := [];
      pipelineLayout := NullHandle;
      pipeline := NullHandle;
      graphicsPipelines := map[];
      templateAttachmentCount := 0;
      templateRenderPass := NullHandle;
    }

    /**
     * `create_descriptor_set_layout`: registers every buffer binding
     * reflection reports as a null placeholder, then appends the device's
     * layout for each set number reflection mentions, then locks the layout.
     */
    method CreateDescriptorSetLayout(dev: VulkanDevice, rss: seq<ReflectedSet>)
      returns (r: Result<(), DeviceError>, ghost order: seq<nat>)
      requires Valid() && dev.Valid() && dev.driver == driver && !binder.locked
      modifies this, binder, dev, driver
      ensures Valid() && dev.Valid() && dev.LayoutCacheGrew()
      ensures binder.sets == RegisterAllSpec(old(binder.sets), rss, |rss|)
      ensures r.Ok? <==> forall i :: 0 <= i < |rss| ==> rss[i].setNumber in binder.sets
      ensures r.Err? ==> r == Err(BinderFailed(UnknownSet))
      ensures r.Ok? ==>
        && binder.locked
        && |order| == |set i | 0 <= i < |rss| :: rss[i].setNumber|
        && (forall i :: 0 <= i < |rss| ==> rss[i].setNumber in order)
        && |setLayouts| == |old(setLayouts)| + |order| && setLayouts[..|old(setLayouts)|] == old(setLayouts)
        && forall k :: 0 <= k < |order| ==> LayoutCached(binder.sets, order[k], setLayouts[|old(setLayouts)| + k], dev.descSetLayouts)
      ensures pipelineLayout == old(pipelineLayout) && pipeline == old(pipeline) && graphicsPipelines == old(graphicsPipelines)
    {
      var setsUsed := binder.RegisterReflection(rss);
      var handles;
      handles, order := dev.LayoutsFor(binder.sets, setsUsed);
      if handles.Err? {
        return Err(handles.error), order;
      }
      ghost var prefix := setLayouts;
      setLayouts := setLayouts + handles.value;
      forall k | 0 <= k < |order|
        ensures LayoutCached(binder.sets, order[k], setLayouts[|prefix| + k], dev.descSetLayouts)
      {
        assert setLayouts[|prefix| + k] == handles.value[k];
      }
      assert setLayouts[..|prefix|] == prefix;
      binder.LockLayout();
      return Ok(()), order;
    }

    /** `create_pipeline_layout`: a pipeline layout over the set layouts. */
    method CreatePipelineLayout()
      modifies this, driver
      ensures pipelineLayout == old(driver.next) + 1 && driver.next == pipelineLayout
      ensures driver.log == old(driver.log) + [Created(PipelineLayoutObject(setLayouts), pipelineLayout)]
      ensures setLayouts == old(setLayouts) && pipeline == old(pipeline) && graphicsPipelines == old(graphicsPipelines)
      ensures templateAttachmentCount == old(templateAttachmentCount) && templateRenderPass == old(templateRenderPass)
    {
      pipelineLayout := driver.Create(PipelineLayoutObject(setLayouts));
    }

    /** `create_compute_pipeline`: a compute pipeline with the pipeline layout. */
    method CreateComputePipeline()
      modifies this, driver
      ensures pipeline == old(driver.next) + 1 && driver.next == pipeline
      ensures driver.log == old(driver.log) + [Created(ComputePipelineObject(pipelineLayout), pipeline)]
      ensures setLayouts == old(setLayouts) && pipelineLayout == old(pipelineLayout) && graphicsPipelines == old(graphicsPipelines)
      ensures templateAttachmentCount == old(templateAttachmentCount) && templateRenderPass == old(templateRenderPass)
    {
      pipeline := driver.Create(ComputePipelineObject(pipelineLayout));
    }

    /**
     * The tail of the constructor: the pipeline layout, then, without a
     * graphics template, the compute pipeline.
     */
    method CreateLayoutAndPipeline()
      modifies this, driver
      ensures setLayouts == old(setLayouts) && graphicsPipelines == old(graphicsPipelines)
      ensures templateAttachmentCount == old(templateAttachmentCount) && templateRenderPass == old(templateRenderPass)
      ensures isGraphics ==>
        && pipelineLayout == old(driver.next) + 1 && driver.next == pipelineLayout
        && driver.log == old(driver.log) + [Created(PipelineLayoutObject(setLayouts), pipelineLayout)]
      ensures !isGraphics ==>
        && pipelineLayout == old(driver.next) + 1 && pipeline == pipelineLayout + 1 && driver.next == pipeline
        && driver.log == old(driver.log) + [Created(PipelineLayoutObject(setLayouts), pipelineLayout),
                                            Created(ComputePipelineObject(pipelineLayout), pipeline)]
    {
      CreatePipelineLayout();
      if !isGraphics {
        CreateComputePipeline();
      }
    }

    /** `~VulkanPipeline`: destroys the pipeline, then its layout. */
    method Destroy()
      modifies driver
      ensures driver.next == old(driver.next)
      ensures driver.log == old(driver.log) + [DestroyPipeline(pipeline), DestroyPipelineLayout(pipelineLayout)]
    {
      driver.Call(DestroyPipeline(pipeline));
      driver.Call(DestroyPipelineLayout(pipelineLayout));
    }

    /**
     * `graphics_pipeline`: the pipeline cached for the render pass, or a new
     * one created from the template set to the pass and its colour-attachment
     * count; the template is reset afterwards. The cache is keyed by the
     * render pass alone.
     */
    method GraphicsPipeline(desc: RenderPassDesc, renderpass: Handle) returns (vk: Handle)
      requires Valid()
      modifies this, driver
      ensures Valid()
      ensures renderpass in graphicsPipelines && graphicsPipelines[renderpass] == vk
      ensures renderpass in old(graphicsPipelines) ==>
        && vk == old(graphicsPipelines)[renderpass] && graphicsPipelines == old(graphicsPipelines)
        && driver.log == old(driver.log) && driver.next == old(driver.next)
      ensures renderpass !in old(graphicsPipelines) ==>
        && vk == old(driver.next) + 1 && driver.next == vk && graphicsPipelines == old(graphicsPipelines)[renderpass := vk]
        && driver.log == old(driver.log) + [Created(GraphicsPipelineObject(renderpass, |desc.colorAttachments|), vk)]
      ensures setLayouts == old(setLayouts) && pipelineLayout == old(pipelineLayout) && pipeline == old(pipeline)
    {
      if renderpass in graphicsPipelines {
        return graphicsPipelines[renderpass];
      }
      templateAttachmentCount := |desc.colorAttachments|;
      templateRenderPass := renderpass;
      vk := driver.Create(GraphicsPipelineObject(templateRenderPass, templateAttachmentCount));
      graphicsPipelines := graphicsPipelines[renderpass := vk];
      templateAttachmentCount := 0;
      templateRenderPass := NullHandle;
    }
  }

  /**
   * The `VulkanPipeline` constructors: descriptor set layouts from the
   * reflected shader code, the pipeline layout, and for a compute pipeline
   * the pipeline itself; a graphics pipeline is created later, per render
   * pass, by `GraphicsPipeline`.
   */
  method NewPipeline(dev: VulkanDevice, rss: seq<ReflectedSet>, isGraphics: bool)
    returns (r: Result<Pipeline, DeviceError>, ghost order: seq<nat>)
    requires dev.Valid()
    modifies dev, dev.driver
    ensures dev.Valid() && dev.LayoutCacheGrew()
    ensures r.Ok? <==> EverySetHasBuffers(rss)
    ensures r.Err? ==> r == Err(BinderFailed(UnknownSet))
    ensures r.Ok? ==> var p, log := r.value, dev.driver.log;
      && fresh(p) && fresh(p.binder) && p.Valid() && p.driver == dev.driver && p.isGraphics == isGraphics
      && p.binder.locked && p.binder.sets == RegisterAllSpec(map[], rss, |rss|)
      && p.graphicsPipelines == map[]
      && |order| == |set i | 0 <= i < |rss| :: rss[i].setNumber| && (forall i :: 0 <= i < |rss| ==> rss[i].setNumber in order)
      && |p.setLayouts| == |order|
      && (forall k :: 0 <= k < |order| ==> LayoutCached(p.binder.sets, order[k], p.setLayouts[k], dev.descSetLayouts))
      && (isGraphics ==>
            && p.pipelineLayout == dev.driver.next
            && |log| >= 1 && log[|log| - 1] == Created(PipelineLayoutObject(p.setLayouts), p.pipelineLayout))
      && (!isGraphics ==>
            && p.pipelineLayout + 1 == p.pipeline == dev.driver.next
            && |log| >= 2 && log[|log| - 2] == Created(PipelineLayoutObject(p.setLayouts), p.pipelineLayout)
            && log[|log| - 1] == Created(ComputePipelineObject(p.pipelineLayout), p.pipeline))
  {
    var p := new Pipeline(dev.driver, isGraphics);
    var layouts;
    layouts, order := p.CreateDescriptorSetLayout(dev, rss);
    LayoutsResolveIff(rss);
    if layouts.Err? {
      return Err(layouts.error), order;
    }
    p.CreateLayoutAndPipeline();
    return Ok(p), order;
  }
}
