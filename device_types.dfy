/**
 * The backend-neutral value types of the device abstraction
 * (taichi/backends/device.h): capability flags, universal pointers and
 * ranges, memory types, and the device capacity.
 */
module DeviceTypes {

  type U32 = x: int | 0 <= x < 0x1_0000_0000
  type U64 = x: int | 0 <= x < 0x1_0000_0000_0000_0000

  /** Device 0 is always the host; address space 0 of it is Taichi's own process. */
  const HostDeviceId: U32 := 0

  /** `taichi_max_num_devices`. */
  const MaxNumDevices: nat := 256

  /** `DeviceCaps`. */
  datatype DeviceCaps = Compute | Graphics | Display | AccelRaytracing | AccelTensor | AccelCodec

  /** The integer each capability stands for; each is a single bit, so they combine as flags. */
  function CapValue(c: DeviceCaps): (v: bv8)
    ensures v != 0 && v & (v - 1) == 0
  {
    match c
    case Compute => 1
    case Graphics => 2
    case Display => 4
    case AccelRaytracing => 8
    case AccelTensor => 16
    case AccelCodec => 32
  }

  /** Two different capabilities share no bit, so a set of them is recoverable from their OR. */
  lemma CapValuesDisjoint(a: DeviceCaps, b: DeviceCaps)
    ensures a != b <==> CapValue(a) & CapValue(b) == 0
  {
  }

  /** `Device::MemoryType`. */
  datatype MemoryType = DeviceMemory | HostVisible | HostCoherent | HostToDevice | DeviceToHost

  /** `Device::DeviceType`. */
  datatype DeviceType = Host | GpuUma | Gpu | Remote

  /** `Device::AllocationHint`. */
  datatype AllocationHint = Static | Dynamic | Transient

  /** `DisplayDevice::DisplayFormat`. */
  datatype DisplayFormat = R8 | R32F | RGBA8 | RGBA16F | RGBA16FHdr | RGBA32F

  /** `DevicePtr`: a pointer into the memory of any registered device. */
  datatype DevicePtr = DevicePtr(devId: U32, addrSpace: U32, ptr: U64)

  /** `DeviceRange`: a `DevicePtr` together with a length in bytes. */
  datatype DeviceRange = DeviceRange(base: DevicePtr, length: U64)

  /** A pointer into Taichi's own process: device 0, address space 0. */
  predicate IsHostPtr(p: DevicePtr)
  {
    p.devId == HostDeviceId && p.addrSpace == 0
  }

  /** `DevicePtr(void *host_ptr)`: a host address seen as a universal pointer. */
  function PtrFromHost(hostAddr: U64): (p: DevicePtr)
    ensures IsHostPtr(p) && p.ptr == hostAddr
  {
    DevicePtr(0, 0, hostAddr)
  }

  /** `DeviceRange(const DevicePtr &ptr, uint64_t length)`. */
  function RangeFromPtr(p: DevicePtr, length: U64): (r: DeviceRange)
    ensures r.base.devId == p.devId && r.base.addrSpace == p.addrSpace && r.base.ptr == p.ptr
    ensures r.length == length
  {
    DeviceRange(p, length)
  }

  /** `DeviceRange(dev_id, addr_space, ptr, length)`. */
  function RangeOf(devId: U32, addrSpace: U32, ptr: U64, length: U64): (r: DeviceRange)
    ensures r == RangeFromPtr(DevicePtr(devId, addrSpace, ptr), length)
  {
    DeviceRange(DevicePtr(devId, addrSpace, ptr), length)
  }

  /** `DeviceRange(void *host_ptr, uint64_t length)`. */
  function HostRange(hostAddr: U64, length: U64): (r: DeviceRange)
    ensures IsHostPtr(r.base) && r.base.ptr == hostAddr && r.length == length
    ensures r == RangeFromPtr(PtrFromHost(hostAddr), length)
  {
    DeviceRange(PtrFromHost(hostAddr), length)
  }

  /** Slicing a range to its pointer and rebuilding it with the same length gives the range back. */
  lemma RangeRoundTrip(r: DeviceRange)
    ensures RangeFromPtr(r.base, r.length) == r
  {
  }
}
