/** The type catalogue of OSPCommon.cpp: the byte width of every data type tag
    and texture format, and the names of the data type tags in both
    directions. */
module OSPTypes {
  import opened Errors

  /** OSPDataType. `Unlisted` stands for every enumerator value that none of
      the named tags (and not OSP_UNKNOWN) denotes; the catalogue has no case
      for such a value. */
  datatype DataType =
    | VoidPtr | Object | Camera | Data | Device | FrameBuffer | Geometry | Light
    | Material | Model | Renderer | Texture | TransferFunction | Volume | PixelOp
    | String
    | Char | UChar | UChar2 | UChar3 | UChar4 | UShort
    | Int | Int2 | Int3 | Int4 | UInt | UInt2 | UInt3 | UInt4
    | Long | Long2 | Long3 | Long4 | ULong | ULong2 | ULong3 | ULong4
    | Float | Float2 | Float3 | Float4 | Float3A | Double
    | Unknown
    | Unlisted(code: int)

  /** OSPTextureFormat, with `OtherFormat` for every value outside the table. */
  datatype TextureFormat =
    | RGBA8 | SRGBA | RGBA32F | RGB8 | SRGB | RGB32F | R8 | R32F
    | OtherFormat(code: int)

  /** sizeof(void *) on the coprocessor. */
  const PTR_WIDTH: nat := 8

  /** The tags that name a kind of engine object. */
  predicate IsObjectKind(t: DataType) {
    t in {Object, Camera, Data, Device, FrameBuffer, Geometry, Light, Material,
          Model, Renderer, Texture, TransferFunction, Volume, PixelOp}
  }

  /** The tags that the switches of sizeOf and stringForType have a case for. */
  predicate Listed(t: DataType) {
    !t.Unknown? && !t.Unlisted?
  }

  /** sizeOf(OSPDataType): the byte width of one element of type `t`. */
  function SizeOf(t: DataType): (r: Result<nat>)
    ensures r.Ok? <==> Listed(t)
    ensures r.Throw? ==> r.error == UnknownDataType
    ensures r.Ok? ==> r.value > 0
  {
    match t
    case VoidPtr | Object | Camera | Data | Device | FrameBuffer | Geometry
       | Light | Material | Model | Renderer | Texture | TransferFunction
       | Volume | PixelOp | String => Ok(PTR_WIDTH)
    case Char => Ok(1)
    case UChar => Ok(1)
    case UChar2 => Ok(2)
    case UChar3 => Ok(3)
    case UChar4 => Ok(4)
    case UShort => Ok(2)
    case Int => Ok(4)
    case Int2 => Ok(8)
    case Int3 => Ok(12)
    case Int4 => Ok(16)
    case UInt => Ok(4)
    case UInt2 => Ok(8)
    case UInt3 => Ok(12)
    case UInt4 => Ok(16)
    case Long => Ok(8)
    case Long2 => Ok(16)
    case Long3 => Ok(24)
    case Long4 => Ok(32)
    case ULong => Ok(8)
    case ULong2 => Ok(16)
    case ULong3 => Ok(24)
    case ULong4 => Ok(32)
    case Float => Ok(4)
    case Float2 => Ok(8)
    case Float3 => Ok(12)
    case Float4 => Ok(16)
    case Float3A => Ok(16)
    case Double => Ok(8)
    case Unknown | Unlisted(_) => Throw(UnknownDataType)
  }

  /** Object references, raw pointers and strings all occupy one pointer. */
  lemma SizeOfPointerWidth(t: DataType)
    ensures IsObjectKind(t) || t == VoidPtr || t == String ==> SizeOf(t) == Ok(PTR_WIDTH)
  {
  }

  /** The scalar type of one component of a numeric tag, and its width. */
  function ScalarWidth(t: DataType): nat {
    if t in {Char, UChar, UChar2, UChar3, UChar4} then 1
    else if t == UShort then 2
    else if t in {Int, Int2, Int3, Int4, UInt, UInt2, UInt3, UInt4, Float, Float2, Float3, Float4} then 4
    else 8
  }

  /** The number of components: the trailing digit of the vector tags. */
  function Components(t: DataType): nat {
    if t in {UChar2, Int2, UInt2, Long2, ULong2, Float2} then 2
    else if t in {UChar3, Int3, UInt3, Long3, ULong3, Float3} then 3
    else if t in {UChar4, Int4, UInt4, Long4, ULong4, Float4} then 4
    else 1
  }

  /** The numeric tags other than the padded float3. */
  predicate IsPackedNumeric(t: DataType) {
    Listed(t) && !IsObjectKind(t) && t != VoidPtr && t != String && t != Float3A
  }

  /** A packed vector is as wide as its components laid end to end; the
      aligned float3 is padded to four floats. */
  lemma SizeOfNumeric(t: DataType)
    ensures IsPackedNumeric(t) ==> SizeOf(t) == Ok(Components(t) * ScalarWidth(t))
    ensures SizeOf(Float3A) == Ok(4 * ScalarWidth(Float3))
  {
  }

  /** sizeOf(OSPTextureFormat): the byte width of one texel. */
  function SizeOfTexture(f: TextureFormat): (r: Result<nat>)
    ensures r.Ok? <==> !f.OtherFormat?
    ensures r.Throw? ==> r.error == UnknownTextureFormat
  {
    match f
    case RGBA8 | SRGBA => Ok(4)
    case RGBA32F => Ok(16)
    case RGB8 | SRGB => Ok(3)
    case RGB32F => Ok(12)
    case R8 => Ok(1)
    case R32F => Ok(4)
    case OtherFormat(_) => Throw(UnknownTextureFormat)
  }

  function TexelChannels(f: TextureFormat): nat {
    if f in {RGBA8, SRGBA, RGBA32F} then 4 else if f in {RGB8, SRGB, RGB32F} then 3 else 1
  }

  function ChannelBytes(f: TextureFormat): nat {
    if f in {RGBA32F, RGB32F, R32F} then 4 else 1
  }

  /** A texel is its channel count times its channel width. */
  lemma TexelSize(f: TextureFormat)
    ensures !f.OtherFormat? ==> SizeOfTexture(f) == Ok(TexelChannels(f) * ChannelBytes(f))
  {
  }
}
