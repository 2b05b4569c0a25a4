/**
 * Value types of the Vulkan backend (taichi/backends/vulkan/vulkan_device.cpp):
 * opaque native handles, the backend's own allocation and pointer records,
 * descriptor bindings, render-pass and framebuffer keys, and the table from
 * Taichi buffer formats to Vulkan formats.
 */
module VkTypes {
  import opened Wrappers

  type U32 = x: int | 0 <= x < 0x1_0000_0000
  type U64 = x: int | 0 <= x < 0x1_0000_0000_0000_0000

  /** An opaque native handle; 0 is `VK_NULL_HANDLE`. */
  type Handle = nat
  const NullHandle: Handle := 0

  /** `VK_WHOLE_SIZE`. */
  const VkWholeSize: U64 := 0xFFFF_FFFF_FFFF_FFFF

  /**
   * `DeviceAllocation`: the owning device (0 stands for a null device
   * pointer, any other number for one `VulkanDevice`) and an allocation id.
   */
  datatype DeviceAllocation = DeviceAllocation(device: nat, allocId: nat)

  /**
   * The backend's `DevicePtr`: an allocation plus a byte offset. It is a
   * different type from the universal `DevicePtr` of the device abstraction.
   */
  datatype DevicePtr = DevicePtr(device: nat, allocId: nat, offset: U64)

  /** `kDeviceNullPtr`: null device, allocation 0, offset 0. */
  const NullPtr: DevicePtr := DevicePtr(0, 0, 0)

  /** `DeviceAllocation::get_ptr(offset)`. */
  function PtrOf(alloc: DeviceAllocation, offset: U64): (p: DevicePtr)
    ensures p.device == alloc.device && p.allocId == alloc.allocId && p.offset == offset
    ensures alloc.device != 0 ==> p != NullPtr
  {
    DevicePtr(alloc.device, alloc.allocId, offset)
  }

  /** The two descriptor types the binder registers. */
  datatype DescriptorKind = StorageBuffer | UniformBuffer

  /** One binding of a descriptor set: its kind, the buffer it points at and the range size. */
  datatype Binding = Binding(kind: DescriptorKind, ptr: DevicePtr, size: U64)

  /** The structure of a descriptor set (binding number to kind), which keys the layout cache. */
  type SetLayout = map<nat, DescriptorKind>

  // ---------------------------------------------------------------------------
  // Formats

  datatype Numeric = Unorm | Uint | Sint | Sfloat

  /** A Vulkan format: a colour format by channel count, bits per channel and numeric class, or a depth format. */
  datatype VkFormat =
    | Undefined
    | Color(channels: nat, bits: nat, numeric: Numeric)
    | D16Unorm
    | D24UnormS8Uint
    | D32Sfloat

  /** `BufferFormat`. */
  datatype BufferFormat =
    | R8 | RG8 | RGBA8 | R8u | RG8u | RGBA8u | R8i | RG8i | RGBA8i
    | R16 | RG16 | RGB16 | RGBA16 | R16u | RG16u | RGB16u | RGBA16u
    | R16i | RG16i | RGB16i | RGBA16i | R16f | RG16f | RGB16f | RGBA16f
    | R32u | RG32u | RGB32u | RGBA32u | R32i | RG32i | RGB32i | RGBA32i
    | R32f | RG32f | RGB32f | RGBA32f
    | Depth16 | Depth24Stencil8 | Depth32f

  predicate IsDepth(f: BufferFormat)
  {
    f == Depth16 || f == Depth24Stencil8 || f == Depth32f
  }

  /** The channel count, channel width and numeric class a colour format's name announces. */
  function Channels(f: BufferFormat): nat
  {
    match f
    case R8 | R8u | R8i | R16 | R16u | R16i | R16f | R32u | R32i | R32f => 1
    case RG8 | RG8u | RG8i | RG16 | RG16u | RG16i | RG16f | RG32u | RG32i | RG32f => 2
    case RGB16 | RGB16u | RGB16i | RGB16f | RGB32u | RGB32i | RGB32f => 3
    case RGBA8 | RGBA8u | RGBA8i | RGBA16 | RGBA16u | RGBA16i | RGBA16f | RGBA32u | RGBA32i | RGBA32f => 4
    case Depth16 | Depth24Stencil8 | Depth32f => 0
  }

  function Bits(f: BufferFormat): nat
  {
    match f
    case R8 | RG8 | RGBA8 | R8u | RG8u | RGBA8u | R8i | RG8i | RGBA8i => 8
    case R16 | RG16 | RGB16 | RGBA16 | R16u | RG16u | RGB16u | RGBA16u
       | R16i | RG16i | RGB16i | RGBA16i | R16f | RG16f | RGB16f | RGBA16f | Depth16 => 16
    case Depth24Stencil8 => 24
    case R32u | RG32u | RGB32u | RGBA32u | R32i | RG32i | RGB32i | RGBA32i
       | R32f | RG32f | RGB32f | RGBA32f | Depth32f => 32
  }

  function NumericOf(f: BufferFormat): Numeric
  {
    match f
    case R8 | RG8 | RGBA8 | R16 | RG16 | RGB16 | RGBA16 | Depth16 | Depth24Stencil8 => Unorm
    case R8u | RG8u | RGBA8u | R16u | RG16u | RGB16u | RGBA16u | R32u | RG32u | RGB32u | RGBA32u => Uint
    case R8i | RG8i | RGBA8i | R16i | RG16i | RGB16i | RGBA16i | R32i | RG32i | RGB32i | RGBA32i => Sint
    case R16f | RG16f | RGB16f | RGBA16f | R32f | RG32f | RGB32f | RGBA32f | Depth32f => Sfloat
  }

  /** The four unsigned 16-bit formats, which the table maps to UNORM formats. */
  predicate IsUnsigned16(f: BufferFormat)
  {
    f == R16u || f == RG16u || f == RGB16u || f == RGBA16u
  }

  /** `buffer_format_ti_2_vk`. */
  function BufferFormatToVk(f: BufferFormat): (v: VkFormat)
    ensures v != Undefined
    ensures IsDepth(f) <==> !v.Color?
  {
    match f
    case Depth16 => D16Unorm
    case Depth24Stencil8 => D24UnormS8Uint
    case Depth32f => D32Sfloat
    case R16u | RG16u | RGB16u | RGBA16u => Color(Channels(f), Bits(f), Unorm)
    case _ => Color(Channels(f), Bits(f), NumericOf(f))
  }

  /** Every colour format keeps its channel count and channel width. */
  lemma BufferFormatKeepsShape(f: BufferFormat)
    requires !IsDepth(f)
    ensures BufferFormatToVk(f).Color?
    ensures BufferFormatToVk(f).channels == Channels(f) && BufferFormatToVk(f).bits == Bits(f)
  {
  }

  /** The numeric class is kept for every colour format except the unsigned 16-bit ones, which read as UNORM. */
  lemma BufferFormatNumeric(f: BufferFormat)
    requires !IsDepth(f)
    ensures BufferFormatToVk(f).numeric == NumericOf(f) <==> !IsUnsigned16(f)
    ensures IsUnsigned16(f) ==> BufferFormatToVk(f).numeric == Unorm
  {
  }

  /** The colour format with a given channel count, width and numeric class, if there is one. */
  function ColorFormatWithShape(channels: nat, bits: nat, numeric: Numeric): Option<BufferFormat>
  {
    match (channels, bits, numeric)
    case (1, 8, Unorm) => Some(R8)
    case (2, 8, Unorm) => Some(RG8)
    case (4, 8, Unorm) => Some(RGBA8)
    case (1, 8, Uint) => Some(R8u)
    case (2, 8, Uint) => Some(RG8u)
    case (4, 8, Uint) => Some(RGBA8u)
    case (1, 8, Sint) => Some(R8i)
    case (2, 8, Sint) => Some(RG8i)
    case (4, 8, Sint) => Some(RGBA8i)
    case (1, 16, Unorm) => Some(R16)
    case (2, 16, Unorm) => Some(RG16)
    case (3, 16, Unorm) => Some(RGB16)
    case (4, 16, Unorm) => Some(RGBA16)
    case (1, 16, Uint) => Some(R16u)
    case (2, 16, Uint) => Some(RG16u)
    case (3, 16, Uint) => Some(RGB16u)
    case (4, 16, Uint) => Some(RGBA16u)
    case (1, 16, Sint) => Some(R16i)
    case (2, 16, Sint) => Some(RG16i)
    case (3, 16, Sint) => Some(RGB16i)
    case (4, 16, Sint) => Some(RGBA16i)
    case (1, 16, Sfloat) => Some(R16f)
    case (2, 16, Sfloat) => Some(RG16f)
    case (3, 16, Sfloat) => Some(RGB16f)
    case (4, 16, Sfloat) => Some(RGBA16f)
    case (1, 32, Uint) => Some(R32u)
    case (2, 32, Uint) => Some(RG32u)
    case (3, 32, Uint) => Some(RGB32u)
    case (4, 32, Uint) => Some(RGBA32u)
    case (1, 32, Sint) => Some(R32i)
    case (2, 32, Sint) => Some(RG32i)
    case (3, 32, Sint) => Some(RGB32i)
    case (4, 32, Sint) => Some(RGBA32i)
    case (1, 32, Sfloat) => Some(R32f)
    case (2, 32, Sfloat) => Some(RG32f)
    case (3, 32, Sfloat) => Some(RGB32f)
    case (4, 32, Sfloat) => Some(RGBA32f)
    case _ => None
  }

  lemma ShapeDeterminesFormat(f: BufferFormat)
    requires !IsDepth(f)
    ensures ColorFormatWithShape(Channels(f), Bits(f), NumericOf(f)) == Some(f)
  {
  }

  /** A colour format outside the unsigned 16-bit ones maps to the Vulkan format of its own shape. */
  lemma ColorFormatMapsToShape(f: BufferFormat)
    requires !IsDepth(f) && !IsUnsigned16(f)
    ensures BufferFormatToVk(f) == Color(Channels(f), Bits(f), NumericOf(f))
  {
  }

  /** Distinct formats share a Vulkan format only when one of them is unsigned 16-bit. */
  lemma {:induction false} BufferFormatCollisions(f: BufferFormat, g: BufferFormat)
    requires f != g && !IsUnsigned16(f) && !IsUnsigned16(g)
    ensures BufferFormatToVk(f) != BufferFormatToVk(g)
  {
    if IsDepth(f) || IsDepth(g) {
      assert IsDepth(f) <==> !BufferFormatToVk(f).Color? && BufferFormatToVk(f) != Undefined;
    } else {
      ColorFormatMapsToShape(f);
      ColorFormatMapsToShape(g);
      ShapeDeterminesFormat(f);
      ShapeDeterminesFormat(g);
    }
  }

  // ---------------------------------------------------------------------------
  // Render pass and framebuffer keys

  /** One colour attachment of a render pass: its format and whether it is cleared. */
  datatype ColorAttachment = ColorAttachment(format: VkFormat, clear: bool)

  /** `VulkanRenderPassDesc`: the key of the render-pass cache. */
  datatype RenderPassDesc = RenderPassDesc(colorAttachments: seq<ColorAttachment>, depthAttachment: VkFormat, clearDepth: bool)

  /** `VulkanFramebufferDesc`: the key of the framebuffer cache. */
  datatype FramebufferDesc = FramebufferDesc(attachments: seq<Handle>, width: U32, height: U32, renderpass: Handle)

  /** The unsigned 32-bit value of an `int` difference, as the implicit conversion to `uint32_t` gives. */
  function ToU32(x: int): (r: U32)
    ensures 0 <= x < 0x1_0000_0000 ==> r == x
    ensures x < 0 && -0x1_0000_0000 <= x ==> r == x + 0x1_0000_0000
  {
    x % 0x1_0000_0000
  }
}
