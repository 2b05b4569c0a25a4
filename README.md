# Taichi device layer: a Dafny model

This project models the device abstraction of the Taichi runtime. It has six parts:

- **Device value types.** These are the backend-neutral types of `device.h`: capability flags, the universal `DevicePtr`, `DeviceRange` and the device capacity.
- **Process-wide device registry.** It hands out device ids in registration order and refuses once 256 devices are registered.
- **Heterogeneous kernel launch.** `ComputeDevice::launch_kernel` gives each SNode that lives on another device a local alias or a replica. The kernel then runs on local memory. Afterwards the replicas are copied back and released, and each side waits for the other.
- **Vulkan backend core.** This covers several pieces:
  - the resource binder and its descriptor-set writes;
  - buffer allocation, mapping and unmapping;
  - recycling of command buffers and descriptor sets, submission and `command_sync`;
  - the render-pass, framebuffer and descriptor-set-layout caches;
  - pipeline creation and binding;
  - render-pass begin and end;
  - the buffer-format table.
- **`detect_read_only` pass.** It flags every SNode an offloaded task reads but never writes. Its companion analysis records, for each kernel argument, how the task accesses it through an external pointer.
- **C API reference-count table.**

Each part of the source that changes state in place is modelled as a Dafny class:

- the registry;
- the compute device;
- the Vulkan device;
- the command list;
- the pipeline;
- the resource binder;
- the offloaded task;
- the access visitor;
- the object pool.

Each method of such a class states its effect as the new value of every field it may change. Where an effect is more than a single update, it is written with a pure specification function, and the properties of that function are proved as lemmas. These specification functions carry no contract of their own and have no row in the table below:

- `Vulkan.UsageFor` (the memory usage chosen for host access);
- `Vulkan.MapIn` and `Vulkan.UnmapIn` (the allocation table after a map or an unmap);
- `Vulkan.PopBack` and `Vulkan.FreeSets` (free lists used as stacks);
- `Vulkan.ReturnSets` (descriptor sets returned to their pools);
- `Vulkan.SyncRecycle` (the free and deferred lists after a sync);
- `Vulkan.DestroyCalls` (the fence destructions of a sync);
- `Launch.Phase`, `Launch.LaunchTrace` and `Launch.Count` (the calls of a launch);
- `VkBinder.Bind` and `VkBinder.RegisterAllSpec` (the binder's sets);
- `DetectReadOnly.AccessMap` and `DetectReadOnly.ReadOnlyFlagged`.

The lemmas about them are listed in the table.

Native Vulkan calls are modelled by `Vulkan.NativeDriver`. It hands out fresh opaque handles and records every call in a log. The contracts describe the log in two ways:

- A straight-line operation states its new log exactly, as the old log followed by the calls it makes.
- An operation whose calls depend on a cache hit or a loop states that the old log is kept as a prefix. It then states the calls it depends on, at the positions where they are made. `Vulkan.CommandList.BindResources`, for example, gives for each descriptor set the position of its `UpdateDescriptorSets` call, which is followed at once by its `CmdBindDescriptorSets`, and these positions increase.

The descriptor-set-layout chain (`Vulkan.VulkanDevice.LayoutsFor` and its callers) is the one exception: it does not state the log prefix (see "## Left out").

Several behaviours of the code are kept as written:

- **Render-pass load operations are inverted.** A cleared attachment gets `LOAD` and an uncleared one gets `CLEAR`.
- **Attachment references all point at attachment 0.** The reference index in `get_renderpass` is never advanced.
- **The subpass never reaches the driver.** The render-pass creation info declares one subpass but passes a null subpass array, so the subpass `get_renderpass` builds is discarded. `Vulkan.BuildRenderPassInfo` returns the subpass beside the creation info, and the info records the array as absent.
- **Descriptor sets are always bound at set number 0.** `bind_resources` passes `firstSet` 0 for every set, whatever its set number in the shader. The `CmdBindDescriptorSets` log entry carries that 0.
- **The deferred lists are never emptied.** `command_sync` does not clear the deferred command-buffer and descriptor-set lists, so every sync returns them to the free lists once more. See `Vulkan.SyncRecycleRepeats`.
- **`in_flight_desc_sets_` is never filled.** Descriptor sets are therefore always returned to their pool at once.
- **Graphics pipelines use the compute bind point.** They are bound, and their descriptor sets recorded, with `VK_PIPELINE_BIND_POINT_COMPUTE`.
- **Two pointer types.** The Vulkan backend's `DevicePtr` (a device, an allocation id and an offset) is a separate type from the universal `DevicePtr` of `device.h`.

Wherever an operation throws or asserts, the model returns a `Result` error:

- `unordered_map::at` on a missing key;
- `TI_ASSERT`;
- `TI_ERROR`.

## Model

| member | source | states |
|---|---|---|
| DeviceTypes.CapValue | taichi/backends/device.h:14-21 | each capability is a distinct single bit |
| DeviceTypes.CapValuesDisjoint | taichi/backends/device.h:14-21 | two capabilities share a bit iff they are the same capability |
| DeviceTypes.PtrFromHost | taichi/backends/device.h:33-34 | a host address becomes a pointer on device 0, address space 0 |
| DeviceTypes.RangeFromPtr | taichi/backends/device.h:51-53 | a range keeps the pointer's device, address space and address, with the given length |
| DeviceTypes.RangeOf | taichi/backends/device.h:40-45 | the four-field range constructor equals building the pointer first |
| DeviceTypes.HostRange | taichi/backends/device.h:47-49 | a host range lies on device 0, address space 0 and equals the range of the host pointer |
| DeviceTypes.RangeRoundTrip | taichi/backends/device.h:38-53 | rebuilding a range from its base pointer and length gives it back |
| DeviceRegistry.Registry.constructor | taichi/backends/device.cpp:5-9 | the table starts with 256 empty slots and no registered device |
| DeviceRegistry.Registry.RegisterDevice | taichi/backends/device.cpp:15-28 | below capacity, the device takes the next slot and its id is that slot's number; at capacity, the error is reported and nothing changes |
| DeviceRegistry.Registry.GetDeviceById | taichi/backends/device.cpp:11-13 | a registered id yields the device registered under it, with that id; an unused slot yields null |
| DeviceRegistry.RegisterInOrder | taichi/backends/device.cpp:15-28 | the k-th of a series of registrations gets id k, up to 256; every later one is refused |
| Launch.PrepareEntry | taichi/backends/device.cpp:39-53 | the local range of an entry has the entry's length |
| Launch.Preamble | taichi/backends/device.cpp:38-53 | phase 1 yields one local range per entry and never decreases the allocation count |
| Launch.MapOfLookup | taichi/backends/device.cpp:42-51 | emplacing distinct SNodes in order binds each one to its own local range |
| Launch.KernelSeesLocalMemory | taichi/backends/device.cpp:38-64 | the kernel's mapping has exactly the input SNodes; each lies on this device with its original length, and a local range passes through unchanged |
| Launch.AllLocalFastPath | taichi/backends/device.cpp:38-83 | when every SNode is local, a launch is one internal launch on the unchanged mapping and allocates nothing |
| Launch.LaunchOrdering | taichi/backends/device.cpp:38-83 | the kernel runs once; every aliasing, allocation, inbound transfer and local wait comes before it, and every copy back, deallocation and remote wait after it |
| Launch.TransfersHandledByTarget | taichi/backends/device.h:133-136 | every transfer of a launch is issued on the device that owns its destination |
| Launch.ForeignEntryLifecycle | taichi/backends/device.cpp:43-51 | a foreign SNode without an alias is allocated, filled, copied back and deallocated; with an alias it is only released and never copied back |
| Launch.ForeignEntryCalls | taichi/backends/device.cpp:40-51 | the calls for one foreign SNode, in order: the alias query, then allocation and transfer in only without an alias; later the `is_alias` check, the copy back only for a replica, and the deallocation |
| Launch.PrepareEntryCounts | taichi/backends/device.cpp:40-51 | phase 1 asks once for an alias of each foreign SNode, and allocates and fills a buffer for it exactly when it has no alias |
| Launch.PhaseEntryCounts | taichi/backends/device.cpp:56-83 | for each foreign SNode, phases 2 and 5 make one wait each; phase 4 makes one `is_alias`, one deallocation, and a copy back exactly for a non-alias |
| Launch.CountAppend | taichi/backends/device.cpp:38-83 | the calls of each kind in two stretches of a trace add up |
| Launch.PreambleCounts | taichi/backends/device.cpp:39-53 | phase 1 makes one alias query per foreign SNode and one allocation and one transfer per replicated SNode, and nothing else |
| Launch.PhaseCounts | taichi/backends/device.cpp:56-83 | phases 2 and 5 make one wait per foreign SNode; phase 4 makes one `is_alias` and one deallocation per foreign SNode and one copy back per non-alias |
| Launch.CopiedBackIsReplicated | taichi/backends/device.cpp:43-76 | when `is_alias` agrees with `get_local_alias`, phase 4 copies back exactly the replicated SNodes |
| Launch.LaunchCallCounts | taichi/backends/device.cpp:30-84 | a launch makes one alias query, one `is_alias` and one deallocation per foreign SNode, one allocation and two transfers per replicated SNode, two waits per foreign SNode, and runs the kernel once |
| Launch.ComputeDevice.GetLocalAliasOf | taichi/backends/device.h:110 | records the query and reports the alias the device offers, if any |
| Launch.ComputeDevice.AllocateMemory | taichi/backends/device.h:100 | records the allocation and returns the device's next allocation for that size |
| Launch.ComputeDevice.IsAliasOf | taichi/backends/device.h:113 | records the query and answers whether the pointer is an alias |
| Launch.ComputeDevice.PrepareOne | taichi/backends/device.cpp:40-51 | one step of phase 1 issues exactly the calls and yields the local range `PrepareEntry` gives |
| Launch.ComputeDevice.CopyBackOne | taichi/backends/device.cpp:70-74 | a replica is copied back unless it is an alias, and is then deallocated |
| Launch.ComputeDevice.Preambles | taichi/backends/device.cpp:39-53 | phase 1 issues the preamble's events and builds the local mapping that resolves every SNode to its local range |
| Launch.ComputeDevice.AwaitSourcesPass | taichi/backends/device.cpp:56-61 | this device waits on each foreign source, in mapping order |
| Launch.ComputeDevice.CopyBackPass | taichi/backends/device.cpp:67-76 | the copy-back phase issues the copy-back events of every foreign SNode, in order |
| Launch.ComputeDevice.AwaitTargetsPass | taichi/backends/device.cpp:78-83 | every foreign device waits on this one, in mapping order |
| Launch.ComputeDevice.LaunchKernel | taichi/backends/device.cpp:30-84 | the trace of a launch is the five-phase launch trace |
| DetectReadOnly.GatherSNodeReadWrites | taichi/transforms/detect_read_only.cpp:16 | the read set is exactly the SNodes some load reads, and the write set exactly those some store writes |
| DetectReadOnly.ReadOnlyFlaggedSpec | taichi/transforms/detect_read_only.cpp:15-23 | exactly the SNodes read and never written gain `read_only`; other entries are untouched and no flag is lost |
| DetectReadOnly.ReadOnlyFlaggedIdempotent | taichi/transforms/detect_read_only.cpp:15-23 | running the per-task rule twice gives the same flags as running it once |
| DetectReadOnly.OffloadedTask.DetectReadOnlyInTask | taichi/transforms/detect_read_only.cpp:15-23 | the task's flags become the read-only flagging of its own read and write sets |
| DetectReadOnly.DetectReadOnlyPass | taichi/transforms/detect_read_only.cpp:64-72 | every task of a block, or the single task, gets the per-task flagging |
| DetectReadOnly.AccessMapSpec | taichi/transforms/detect_read_only.cpp:36-59 | an argument is in the map iff it is loaded or stored through an external pointer; READ is set iff it is loaded, WRITE iff it is stored, and no other bit is set |
| DetectReadOnly.AccumulateRecords | taichi/transforms/detect_read_only.cpp:36-59 | visiting one statement adds READ to an argument's entry exactly for a load of it and WRITE exactly for a store, creating the entry if needed, and sets no other bit |
| DetectReadOnly.LoadAndStoreGiveReadWrite | taichi/transforms/detect_read_only.cpp:36-59 | an argument that is both loaded and stored maps to READ\|WRITE |
| DetectReadOnly.AccumulateCovers | taichi/transforms/detect_read_only.cpp:40-44 | visiting a statement keeps every key and every bit already recorded |
| DetectReadOnly.AccessMapMonotone | taichi/transforms/detect_read_only.cpp:36-59 | the map after a prefix of the statements is covered by the map after all of them |
| DetectReadOnly.ExternalPtrAccessVisitor.constructor | taichi/transforms/detect_read_only.cpp:32-34 | the visitor starts from the caller's map |
| DetectReadOnly.ExternalPtrAccessVisitor.VisitLoad | taichi/transforms/detect_read_only.cpp:36-46 | a load through an external pointer ORs READ into the argument's entry, or creates it; any other load changes nothing |
| DetectReadOnly.ExternalPtrAccessVisitor.VisitStore | taichi/transforms/detect_read_only.cpp:48-59 | a store through an external pointer ORs WRITE into the argument's entry, or creates it; any other store changes nothing |
| DetectReadOnly.DetectExternalPtrAccessInTask | taichi/transforms/detect_read_only.cpp:74-80 | the returned map is the access map of the task's body, whose keys are exactly the arguments it accesses |
| RefCounted.NewObject | c_api/src/ref_counted.h:13-16 | a new record holds its address and one reference |
| RefCounted.AddRefObject | c_api/src/ref_counted.h:18-20 | the count grows by one |
| RefCounted.ReleaseRefObject | c_api/src/ref_counted.h:22-24 | the count drops by one, and the new count is returned |
| RefCounted.Create | c_api/src/ref_counted.h:35-38 | a new address enters with count 1; an existing entry is not overwritten; other entries are unchanged |
| RefCounted.AddRef | c_api/src/ref_counted.h:40-43 | an unknown address fails; otherwise only that count grows by one |
| RefCounted.Release | c_api/src/ref_counted.h:45-52 | an unknown address fails; the object is destroyed and erased iff its count reaches zero; other entries are unchanged |
| RefCounted.OperationsPreserveWellFormed | c_api/src/ref_counted.h:35-52 | every entry stays keyed by its own address with a positive count |
| RefCounted.AddRefThenRelease | c_api/src/ref_counted.h:40-52 | taking a reference and releasing it restores the table and destroys nothing |
| RefCounted.CreateThenRelease | c_api/src/ref_counted.h:35-52 | registering a fresh object and releasing it once destroys it and restores the table |
| RefCounted.ObjectPool.constructor | c_api/src/ref_counted.h:32 | the pool starts empty |
| RefCounted.ObjectPool.NewRefCounted | c_api/src/ref_counted.h:35-38 | the pool becomes `Create` of the old pool, and nothing is destroyed |
| RefCounted.ObjectPool.AddRefPtr | c_api/src/ref_counted.h:40-43 | fails iff the address is unknown; otherwise the pool becomes `AddRef` of the old pool |
| RefCounted.ObjectPool.ReleasePtr | c_api/src/ref_counted.h:45-52 | fails iff the address is unknown; otherwise the pool follows `Release`, and a destroyed object is recorded |
| VkTypes.PtrOf | taichi/backends/vulkan/vulkan_device.cpp:414-418 | the pointer keeps the allocation's device and id at the given offset, and is never the null pointer for a real device |
| VkTypes.BufferFormatToVk | taichi/backends/vulkan/vulkan_device.cpp:21-61 | depth formats map exactly to depth Vulkan formats, and nothing maps to UNDEFINED |
| VkTypes.BufferFormatKeepsShape | taichi/backends/vulkan/vulkan_device.cpp:21-61 | every colour format keeps its channel count and channel width |
| VkTypes.BufferFormatNumeric | taichi/backends/vulkan/vulkan_device.cpp:21-61 | the numeric class is kept iff the format is not unsigned 16-bit; those four map to UNORM |
| VkTypes.ShapeDeterminesFormat | taichi/backends/vulkan/vulkan_device.cpp:21-61 | channel count, width and numeric class identify a colour format |
| VkTypes.ColorFormatMapsToShape | taichi/backends/vulkan/vulkan_device.cpp:21-61 | colour formats other than unsigned 16-bit map to the Vulkan format of their own shape |
| VkTypes.BufferFormatCollisions | taichi/backends/vulkan/vulkan_device.cpp:21-61 | two distinct formats, neither unsigned 16-bit, never share a Vulkan format |
| VkTypes.ToU32 | taichi/backends/vulkan/vulkan_device.cpp:705-716 | a difference in range is kept, and a negative one wraps modulo 2^32 |
| VkBinder.BindSpec | taichi/backends/vulkan/vulkan_device.cpp:388-412 | exactly when a bind is stored, ignored or rejected as a kind mismatch, and that a stored bind changes exactly one binding |
| VkBinder.LockedBindKeepsLayout | taichi/backends/vulkan/vulkan_device.cpp:388-400 | once locked, no bind adds a set or a binding or changes a kind |
| VkBinder.BindIdempotent | taichi/backends/vulkan/vulkan_device.cpp:402-436 | binding the same thing twice is the same as binding it once |
| VkBinder.RegisterSetCovers | taichi/backends/vulkan/vulkan_device.cpp:167-185 | registering a reflected set adds exactly its buffer bindings, all as null placeholders, and creates no empty set |
| VkBinder.RegistrationCovers | taichi/backends/vulkan/vulkan_device.cpp:153-204 | after registration a (set, binding) pair exists iff reflection reports a buffer there; every binding is a placeholder and no set is empty |
| VkBinder.SetRegisteredIff | taichi/backends/vulkan/vulkan_device.cpp:167-185 | a set exists after registration iff reflection reports a buffer binding in it |
| VkBinder.LayoutsResolveIff | taichi/backends/vulkan/vulkan_device.cpp:184-211 | every used set can be looked up iff each reported set holds a buffer binding |
| VkBinder.ResourceBinder.constructor | taichi/backends/vulkan/vulkan_device.cpp:381-383 | a binder starts with no sets and unlocked |
| VkBinder.ResourceBinder.Store | taichi/backends/vulkan/vulkan_device.cpp:388-412 | the outcome and new sets are `Bind` of the old ones; the lock is unchanged |
| VkBinder.ResourceBinder.RwBuffer | taichi/backends/vulkan/vulkan_device.cpp:402-412 | binds a storage buffer at the pointer with the size |
| VkBinder.ResourceBinder.RwBufferAlloc | taichi/backends/vulkan/vulkan_device.cpp:414-418 | binds a storage buffer over the whole allocation from offset 0 |
| VkBinder.ResourceBinder.Buffer | taichi/backends/vulkan/vulkan_device.cpp:420-430 | binds a uniform buffer at the pointer with the size |
| VkBinder.ResourceBinder.BufferAlloc | taichi/backends/vulkan/vulkan_device.cpp:432-436 | binds a uniform buffer over the whole allocation from offset 0 |
| VkBinder.ResourceBinder.LockLayout | taichi/backends/vulkan/vulkan_device.cpp:498-500 | the binder is locked and its sets are unchanged |
| VkBinder.ResourceBinder.GetSet | taichi/backends/vulkan/vulkan_device.cpp:206-209 | succeeds iff the set exists, with that set's layout |
| VkBinder.ResourceBinder.RegisterSet | taichi/backends/vulkan/vulkan_device.cpp:167-185 | the sets become the registration of the reflected set's bindings |
| VkBinder.ResourceBinder.RegisterReflection | taichi/backends/vulkan/vulkan_device.cpp:151-204 | the sets become the registration of all reflected sets, and the used sets are exactly the reported set numbers |
| VkBinder.ResourceBinder.WriteToSet | taichi/backends/vulkan/vulkan_device.cpp:457-496 | an unknown set fails; otherwise succeeds iff every bound pointer's allocation exists, and the update writes each bound binding once with its buffer info |
| VkBinder.CollectWrites | taichi/backends/vulkan/vulkan_device.cpp:460-484 | one write and one buffer info per non-null binding, each matched to its binding; fails iff some allocation is unknown |
| VkBinder.LinkInfos | taichi/backends/vulkan/vulkan_device.cpp:486-491 | the k-th write is linked to the k-th buffer info |
| Vulkan.UsageGrantsRequestedAccess | taichi/backends/vulkan/vulkan_device.cpp:838-849 | the chosen memory usage grants host read iff it was requested, and host write iff it was requested |
| Vulkan.UnmapUndoesMap | taichi/backends/vulkan/vulkan_device.cpp:867-909 | mapping succeeds iff the allocation exists and is unmapped, and unmapping afterwards restores the table |
| Vulkan.NoDoubleMapOrUnmap | taichi/backends/vulkan/vulkan_device.cpp:867-909 | mapping twice fails with "already mapped", unmapping twice with "not mapped", and map and unmap never both succeed on the same state |
| Vulkan.PopBackAfterPush | taichi/backends/vulkan/vulkan_device.cpp:919-921 | free lists are stacks: the last handle returned is handed out next |
| Vulkan.PushAfterPopBack | taichi/backends/vulkan/vulkan_device.cpp:1263-1266 | handing a handle out of a free list and returning it restores the list |
| Vulkan.ReturnSetsKeepsPools | taichi/backends/vulkan/vulkan_device.cpp:1025-1027 | returning sets creates and removes no pool, keeps each pool's handle and never shrinks a free list |
| Vulkan.SyncRecycleRepeats | taichi/backends/vulkan/vulkan_device.cpp:1021-1023 | two syncs put each deferred buffer on the free list twice, since the deferred list is never emptied |
| Vulkan.PassAttachments | taichi/backends/vulkan/vulkan_device.cpp:1124-1160 | one description per colour attachment, with its format and colour layout, then one for depth when there is a depth format; an attachment gets LOAD exactly when it is cleared |
| Vulkan.BuildRenderPassInfo | taichi/backends/vulkan/vulkan_device.cpp:1115-1186 | the creation info has the pass's attachments, one subpass and a null subpass array; the subpass built beside it has one colour reference per attachment, all naming attachment 0, and a depth reference to attachment 0 exactly when there is depth |
| Vulkan.VulkanDevice.constructor | taichi/backends/vulkan/vulkan_device.cpp:758-775 | a device starts with empty tables and one new synchronisation fence |
| Vulkan.VulkanDevice.AllocateMemory | taichi/backends/vulkan/vulkan_device.cpp:818-857 | the next allocation id gets a new buffer with the usage for the requested access, unmapped; nothing else changes |
| Vulkan.VulkanDevice.DeallocMemory | taichi/backends/vulkan/vulkan_device.cpp:859-865 | destroys the buffer (a null one for an unknown id) and erases the id |
| Vulkan.VulkanDevice.MapAt | taichi/backends/vulkan/vulkan_device.cpp:867-891 | maps an existing unmapped allocation, recording the new host pointer; otherwise fails and changes nothing |
| Vulkan.VulkanDevice.MapRange | taichi/backends/vulkan/vulkan_device.cpp:867-878 | maps the given size from the pointer's offset under a new handle and logs that one mapping, or fails as `MapIn` does, making no call and taking no handle |
| Vulkan.VulkanDevice.Map | taichi/backends/vulkan/vulkan_device.cpp:880-891 | maps the whole allocation from offset 0 under a new handle and logs that one mapping, or fails as `MapIn` does, making no call and taking no handle |
| Vulkan.VulkanDevice.Unmap | taichi/backends/vulkan/vulkan_device.cpp:893-909 | unmaps an existing mapped allocation, or fails as `UnmapIn` does |
| Vulkan.VulkanDevice.ImportVkImage | taichi/backends/vulkan/vulkan_device.cpp:1091-1107 | the next allocation id records the image, its view and format |
| Vulkan.VulkanDevice.GetVkBuffer | taichi/backends/vulkan/vulkan_device.cpp:1053-1057 | succeeds iff the allocation exists, with its buffer |
| Vulkan.VulkanDevice.GetVkImage | taichi/backends/vulkan/vulkan_device.cpp:1059-1064 | succeeds iff the image allocation exists, with its image, view and format |
| Vulkan.VulkanDevice.GetRenderpass | taichi/backends/vulkan/vulkan_device.cpp:1115-1195 | a cached key returns its render pass and makes no call; a new key creates one render pass from the pass's attachments, with one subpass and a null subpass array, and caches it; the framebuffer cache, memory, command buffers and descriptor sets are unchanged |
| Vulkan.VulkanDevice.GetFramebuffer | taichi/backends/vulkan/vulkan_device.cpp:1066-1089 | a cached key returns its framebuffer and makes no call; a new key creates one framebuffer and caches it |
| Vulkan.VulkanDevice.GetDescSetLayout | taichi/backends/vulkan/vulkan_device.cpp:1197-1255 | a cached layout returns its handle and makes no call; a new one creates a layout and an empty pool of 1000 sets, caches both under a handle no pool had, and logs exactly those two creations; the layout cache is the old one with this layout set to the handle, and every other pool is kept; memory, command buffers, pass caches and in-flight state are unchanged |
| Vulkan.VulkanDevice.LayoutsFor | taichi/backends/vulkan/vulkan_device.cpp:206-211 | succeeds iff every used set exists; then it returns one cached layout per used set, each set once; only the layout cache and the pools grow, and the rest of the device is unchanged |
| Vulkan.VulkanDevice.AcquireDescSet | taichi/backends/vulkan/vulkan_device.cpp:556-557 | the layout cache is the old one with the set's layout set to the returned handle; the set is the top of that pool's free list, which is popped and no call is made, or, when the list is empty, a new set from that pool, which is the last call; the old log is kept; no other pool or device state changes |
| Vulkan.VulkanDevice.AllocDescSet | taichi/backends/vulkan/vulkan_device.cpp:1257-1281 | an unknown layout fails; otherwise the pool's last free set is handed out, or a new set is allocated when the list is empty |
| Vulkan.VulkanDevice.DeallocDescSet | taichi/backends/vulkan/vulkan_device.cpp:1283-1293 | an unknown layout fails; otherwise the set joins its pool's free list |
| Vulkan.VulkanDevice.TakeCommandBuffer | taichi/backends/vulkan/vulkan_device.cpp:917-933 | the last free buffer is reused, or a new one is allocated when the list is empty |
| Vulkan.VulkanDevice.ReleaseCommandBuffer | taichi/backends/vulkan/vulkan_device.cpp:941-947 | a buffer not in flight joins the free list, and one in flight the deferred list |
| Vulkan.VulkanDevice.MarkInFlight | taichi/backends/vulkan/vulkan_device.cpp:973 | the buffer is in flight, and a buffer already in flight keeps its first fence |
| Vulkan.VulkanDevice.InFlightFences | taichi/backends/vulkan/vulkan_device.cpp:1004-1009 | one fence per in-flight buffer, each buffer once |
| Vulkan.VulkanDevice.DestroyFences | taichi/backends/vulkan/vulkan_device.cpp:1014-1016 | destroys each fence, in order |
| Vulkan.VulkanDevice.ReturnDeferredCommandBuffers | taichi/backends/vulkan/vulkan_device.cpp:1021-1023 | deferred buffers join the free list and the deferred list is kept |
| Vulkan.VulkanDevice.ReturnDeferredDescSets | taichi/backends/vulkan/vulkan_device.cpp:1025-1027 | deferred sets join their pools' free lists and the deferred list is kept |
| Vulkan.VulkanDevice.WaitForInFlight | taichi/backends/vulkan/vulkan_device.cpp:1004-1016 | waits for the fences of exactly the in-flight buffers, then destroys them |
| Vulkan.VulkanDevice.ForgetInFlight | taichi/backends/vulkan/vulkan_device.cpp:1018-1019 | nothing is in flight afterwards |
| Vulkan.VulkanDevice.CommandSync | taichi/backends/vulkan/vulkan_device.cpp:999-1028 | does nothing when nothing is in flight; otherwise waits for and destroys every in-flight fence, clears in-flight state and recycles the deferred lists without emptying them |
| Vulkan.VulkanDevice.CreatePipeline | taichi/backends/vulkan/vulkan_device.cpp:800-816 | only a SPIR-V compute source is accepted, and any other makes no call; it yields a locked compute pipeline iff every reported set holds a buffer binding; then it has one set layout per distinct set number, in a returned order, each the cached layout of that set; the last two calls create the pipeline layout over those set layouts and the compute pipeline over that layout, and the pipeline holds the two new handles; only the layout cache and pools grow |
| Vulkan.VulkanDevice.NewCommandList | taichi/backends/vulkan/vulkan_device.cpp:916-936 | a fresh list records into the popped last free buffer, taking no handle, or, when none is free, into a new buffer under the next handle; the log gets exactly the creation if any and the begin of recording |
| Vulkan.VulkanDevice.DeallocCommandList | taichi/backends/vulkan/vulkan_device.cpp:938-948 | finalizes the list, logging the end of recording only if it was not finalized, then recycles its buffer or defers it while in flight; nothing else changes |
| Vulkan.VulkanDevice.Submit | taichi/backends/vulkan/vulkan_device.cpp:950-979 | finalizes the list, creates a fence under the next handle, marks the buffer in flight (keeping an earlier fence) and queues it; the log gets exactly those calls |
| Vulkan.VulkanDevice.SubmitSynced | taichi/backends/vulkan/vulkan_device.cpp:981-997 | finalizes the list, queues it with the device's own fence and waits for that fence, logging exactly those calls; it takes no handle and keeps the device invariant |
| Vulkan.VulkanDevice.BufferTable | taichi/backends/vulkan/vulkan_device.cpp:1053-1057 | the buffer table has exactly the live allocation ids |
| Vulkan.CommandList.constructor | taichi/backends/vulkan/vulkan_device.cpp:502-512 | a list starts unfinalized with no pipeline, pass or descriptor set, and begins recording |
| Vulkan.CommandList.Finalize | taichi/backends/vulkan/vulkan_device.cpp:750-756 | ends recording the first time only, and returns the buffer |
| Vulkan.CommandList.BindPipeline | taichi/backends/vulkan/vulkan_device.cpp:521-550 | a compute pipeline is bound as is; a graphics one is looked up for the current render pass, reused when cached and otherwise created and cached, then bound with viewport, scissor and line width; both use the compute bind point; the log gets exactly those calls, and only a created pipeline takes a handle |
| Vulkan.CommandList.BindSet | taichi/backends/vulkan/vulkan_device.cpp:555-566 | caches the set's layout and takes a set from its pool as `AcquireDescSet` does, returning the (layout, set) pair: the popped free set, or, when the free list is empty, a new set under the last handle whose creation from that pool is the call before the write; the old log is kept; it succeeds iff the set's buffers resolve, and then the last two calls write exactly the set's bindings into that set and bind it at set number 0 with the current pipeline's layout; the pass state and the rest of the device are unchanged |
| Vulkan.CommandList.WriteAndBind | taichi/backends/vulkan/vulkan_device.cpp:558-565 | succeeds iff the set's buffers resolve; then the log is the old one followed by the descriptor update for exactly the set's bindings and the bind at set number 0; a failure makes no call; no handle is taken |
| Vulkan.CommandList.BindResources | taichi/backends/vulkan/vulkan_device.cpp:552-566 | visits binder sets, each once, in a returned order, and records after the old pairs one (layout, set) pair per visited set, the layout being the set's cached layout; the old log is kept, and at increasing positions after it each visited set's descriptor update writes exactly its bindings, followed at once by its bind at set number 0; it succeeds iff every set's buffers resolve, and then every set is visited; on failure it stops at an unvisited set that does not resolve, keeping the pairs already recorded; memory, command buffers, pass caches and in-flight state, and the list's pass state, are unchanged |
| Vulkan.CommandList.ColorAttachmentsOf | taichi/backends/vulkan/vulkan_device.cpp:688-694 | succeeds iff every colour allocation is an image; each attachment has its image's format and clear flag, and each view is its image's view |
| Vulkan.CommandList.OpenPass | taichi/backends/vulkan/vulkan_device.cpp:703-727 | the current pass and framebuffer come from the caches, which only grow, the viewport is the wrapped extent, and the pass begins; memory, command buffers and descriptor sets are unchanged |
| Vulkan.VulkanDevice.PassObjects | taichi/backends/vulkan/vulkan_device.cpp:703-712 | the render pass and framebuffer are the cached ones for the key; the pass caches only grow; memory, command buffers and descriptor sets are unchanged |
| Vulkan.CommandList.BeginRenderpass | taichi/backends/vulkan/vulkan_device.cpp:660-728 | succeeds iff every attachment is an image; the render-pass key has each image's format, clear flag and depth; the framebuffer has the colour views then the depth view; one clear value per attachment; the old log is kept and the last call begins the pass; the pass caches only grow, and a failure makes no call, takes no handle and caches nothing |
| Vulkan.CommandList.Release | taichi/backends/vulkan/vulkan_device.cpp:514-519 | fails iff some recorded set's pool is unknown, after returning the sets before the first such set and with no call; otherwise returns every descriptor set to its pool, logs the end of recording if needed, and recycles or defers the buffer; caches, memory and the allocation counter are unchanged |
| Vulkan.VulkanDevice.ReturnListSets | taichi/backends/vulkan/vulkan_device.cpp:515-517 | succeeds iff every set's pool exists, and then the pools are the sets returned in order; a failure comes at the first set with an unknown pool, after returning the sets before it; nothing else of the device changes |
| Vulkan.CommandList.EndRenderpass | taichi/backends/vulkan/vulkan_device.cpp:730-735 | ends the pass and forgets the current render pass and framebuffer |
| Vulkan.Pipeline.constructor | taichi/backends/vulkan/vulkan_device.cpp:63-89 | a pipeline starts with an unlocked empty binder and no native objects |
| Vulkan.Pipeline.CreateDescriptorSetLayout | taichi/backends/vulkan/vulkan_device.cpp:150-214 | registers the reflection; succeeds iff every reported set exists; then it adds one cached layout per distinct set number and locks the binder; only the device's layout cache and pools grow |
| Vulkan.Pipeline.CreatePipelineLayout | taichi/backends/vulkan/vulkan_device.cpp:233-244 | creates a pipeline layout over the set layouts |
| Vulkan.Pipeline.CreateComputePipeline | taichi/backends/vulkan/vulkan_device.cpp:246-256 | creates a compute pipeline with the pipeline layout |
| Vulkan.Pipeline.CreateLayoutAndPipeline | taichi/backends/vulkan/vulkan_device.cpp:65-68 | the log gets exactly the pipeline-layout creation over the set layouts and, without a graphics template, then the compute-pipeline creation over that layout, each under the next handle; the set layouts are unchanged |
| Vulkan.Pipeline.Destroy | taichi/backends/vulkan/vulkan_device.cpp:91-94 | destroys the pipeline, then its layout |
| Vulkan.Pipeline.GraphicsPipeline | taichi/backends/vulkan/vulkan_device.cpp:111-148 | a render pass seen before returns its pipeline; a new one creates one and caches it |
| Vulkan.NewPipeline | taichi/backends/vulkan/vulkan_device.cpp:63-89 | succeeds iff every reported set holds a buffer binding; the pipeline's binder is locked over the registered sets; it has one set layout per distinct set number, in a returned order, each the cached layout of that set; the next call creates the pipeline layout over those set layouts, and for compute the last creates the compute pipeline over it; the pipeline holds the new handles; only the device's layout cache and pools grow |

## Left out

- **Native Vulkan and VMA calls.** They are not executed. Each becomes a `NativeCall` log entry or a handle from `NativeDriver`. Vulkan result codes are taken to be success, so `BAIL_ON_VK_BAD_RESULT` never fires.
- **SPIR-V reflection.** `spvReflect*` is replaced by a list of `ReflectedSet` values (set number, binding number and descriptor kind). Reflection failures and the vertex-shader attribute warning are not modelled.
- **`PipelineSourceDesc`.** Its type and stage enums are reduced to two booleans. Its code bytes are reduced to their reflection.
- **Shader stages.** `create_shader_module` and `create_shader_stages` are not modelled, nor are the graphics-pipeline template fields built in `create_graphics_pipeline` (vertex input, rasteriser and blend state). `Vulkan.Pipeline.GraphicsPipeline` records only the render pass and the number of colour attachments.
- **Surfaces and device teardown.** `VulkanSurface`, `create_surface`, `create_raster_pipeline` and the `VulkanDevice` destructor are not modelled.
- **Stubs.** `memcpy_internal`, the barrier, copy, fill and dispatch commands, and the `TI_NOT_IMPLEMENTED` binder entries (vertex, index and framebuffer bindings) issue no state change the model tracks.
- **Vertex and index buffers in `bind_resources`.** The graphics-only branch of `bind_resources` is not modelled, because the binder never records those buffers.
- **Fences and mutexes.** The 60-second timeout of fences is not modelled, nor are the mutexes of the registry and of the reference-count table. Every call is atomic.
- **Floating-point state.** The viewport origin and depth range, the line width and the clear colour and depth values are not modelled. Only their number is tracked.
- **`vulkan_device.h` is not part of this model.** The following are assumed:
  - `Set` equality compares the (binding, kind) pairs;
  - `kDeviceNullPtr` is device null, allocation 0, offset 0;
  - `get_set` looks the set up with `at`, so an unknown set is an error;
  - `ExternalPtrAccess` is READ = 1 and WRITE = 2.
- **Iteration order of unordered containers.** It is arbitrary. A launch takes its mapping as a sequence in iteration order. The binder, layout and read-only loops pick an unvisited key each time.
- **The order of bindings within a layout.** Layouts are compared as maps.
- **The ray-tracing, display and device-info parts of `device.h`.**
- **`Device::map` and `unmap` of `device.h`.** They are virtual and have no body in the core. The Vulkan backend's own map and unmap are modelled.
- **The implementations of `get_local_alias`, `allocate_memory`, `is_alias`, `transfer`, `sync_read` and `launch_kernel_internal`.** They belong to each backend. Their answers are oracle functions, and the calls are events.
- **`DetectReadOnly`: the IR.** It is reduced to global loads and stores with an external-pointer, SNode-pointer or absent operand, listed in visiting order. Analysis of nested blocks is folded into that list.
- DetectReadOnly.ExternalPtrAccessVisitor.constructor: aliasing. The source visitor holds a reference to the caller's map; the class holds its own copy, which the caller reads back after the visit, so no other alias of the map is modelled.
- RefCounted.ObjectPool.ReleasePtr: destruction. `destroy<T>` is recorded as the address being added to `destroyed`; no memory is freed.
- RefCounted.AddRef: overflow. The count is unbounded, so the overflow of the C `int` count that `add_ref` can reach, and the same in `RefCounted.AddRefObject` and `RefCounted.ObjectPool.AddRefPtr`, is not modelled.
- DeviceRegistry.Registry.RegisterDevice: the error path. `TI_ERROR` throws, so the `-1` return is never reached. The model returns `LimitReached` instead.
- Vulkan.CommandList.BeginRenderpass: state on failure. When an image lookup throws, the source may already have rewritten the render-pass key. The model's error path states only that no call was made and that the current render pass and framebuffer are unchanged.
- Vulkan.Pipeline.CreateDescriptorSetLayout: state on failure. When `get_set` throws, the set layouts cached before the failure stay, and the model does not say which they are.
- Vulkan.VulkanDevice.AcquireDescSet: the layout calls. The contract states the layout cache, the set handed out and the last call, but not whether a layout and pool were created before it; `GetDescSetLayout` states that.
- VkTypes.ToU32: large differences. It states the result only for differences between -2^32 and 2^32. That covers every difference of two C `int` values, and signed overflow of `x1 - x0` itself is not modelled.
- DeviceRegistry.Registry.GetDeviceById: ids of 256 and above. The source indexes its fixed array without a check, which is undefined behaviour for such ids. The model requires `id < 256` instead.
- Vulkan.CommandList.BindResources: the pools. The contract does not state each pool's free list afterwards; `Vulkan.CommandList.BindSet` states it for one set. It also does not state the layout and set creations between the recorded calls.
- Vulkan.VulkanDevice.LayoutsFor: log prefix. It, `Vulkan.Pipeline.CreateDescriptorSetLayout`, `Vulkan.NewPipeline` and `Vulkan.VulkanDevice.CreatePipeline` do not state that the earlier log is kept, nor which layouts and pools were created; `GetDescSetLayout` states both for one layout.
- Vulkan.VulkanDevice.PassObjects: the calls. It states only that the earlier log is kept, and `Vulkan.CommandList.OpenPass` adds its last call; neither says which creations happened in between. `GetRenderpass` and `GetFramebuffer` state those.
