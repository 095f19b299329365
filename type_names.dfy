/** The two name tables of OSPCommon.cpp: typeForString, which recognises a
    few element-type names, and stringForType, which names every listed tag. */
module TypeNames {
  import opened Errors
  import opened OSPTypes

  /** The names typeForString recognises. */
  const RECOGNISED: set<string> := {"char", "double", "float", "float2", "float3", "float4", "int", "int2", "int3", "int4", "uchar", "uchar2", "uchar3", "uchar4", "ushort", "uint", "uint2", "uint3", "uint4"}

  /** typeForString: `None` is a null C string. */
  function TypeForString(s: Option<string>): (r: DataType)
    ensures r != Unknown <==> s.Some? && s.value in RECOGNISED
    ensures r != Unknown ==> IsParsedTag(r)
  {
    if s.None? then Unknown
    else if s.value == "char" then Char
    else if s.value == "double" then Double
    else if s.value == "float" then Float
    else if s.value == "float2" then Float2
    else if s.value == "float3" then Float3
    else if s.value == "float4" then Float4
    else if s.value == "int" then Int
    else if s.value == "int2" then Int2
    else if s.value == "int3" then Int3
    else if s.value == "int4" then Int4
    else if s.value == "uchar" then UChar
    else if s.value == "uchar2" then UChar2
    else if s.value == "uchar3" then UChar3
    else if s.value == "uchar4" then UChar4
    else if s.value == "ushort" then UShort
    else if s.value == "uint" then UInt
    else if s.value == "uint2" then UInt2
    else if s.value == "uint3" then UInt3
    else if s.value == "uint4" then UInt4
    else Unknown
  }

  /** The case labels of stringForType's switch. */
  function TagName(t: DataType): string {
    match t
    case VoidPtr => "void_ptr"
    case Object => "object"
    case Camera => "camera"
    case Data => "data"
    case Device => "device"
    case FrameBuffer => "framebuffer"
    case Geometry => "geometry"
    case Light => "light"
    case Material => "material"
    case Model => "model"
    case Renderer => "renderer"
    case Texture => "texture"
    case TransferFunction => "transfer_function"
    case Volume => "volume"
    case PixelOp => "pixel_op"
    case String => "string"
    case Char => "char"
    case UChar => "uchar"
    case UChar2 => "uchar2"
    case UChar3 => "uchar3"
    case UChar4 => "uchar4"
    case UShort => "ushort"
    case Int => "int"
    case Int2 => "int2"
    case Int3 => "int3"
    case Int4 => "int4"
    case UInt => "uint"
    case UInt2 => "uint2"
    case UInt3 => "uint3"
    case UInt4 => "uint4"
    case Long => "long"
    case Long2 => "long2"
    case Long3 => "long3"
    case Long4 => "long4"
    case ULong => "ulong"
    case ULong2 => "ulong2"
    case ULong3 => "ulong3"
    case ULong4 => "ulong4"
    case Float => "float"
    case Float2 => "float2"
    case Float3 => "float3"
    case Float4 => "float4"
    case Float3A => "float3a"
    case Double => "double"
    case Unknown | Unlisted(_) => ""
  }

  /** stringForType: the canonical lower-case name of a listed tag. */
  function StringForType(t: DataType): (r: Result<string>)
    ensures r.Ok? <==> Listed(t)
    ensures r.Throw? ==> r.error == UnknownDataType
  {
    if Listed(t) then Ok(TagName(t)) else Throw(UnknownDataType)
  }

  /** The tags typeForString can return besides OSP_UNKNOWN. */
  predicate IsParsedTag(t: DataType) {
    t in {Char, Double, Float, Float2, Float3, Float4, Int, Int2, Int3, Int4,
          UChar, UChar2, UChar3, UChar4, UShort, UInt, UInt2, UInt3, UInt4}
  }

  /** Whatever name typeForString recognises, stringForType prints back. */
  lemma NameRoundTrip(s: string)
    ensures TypeForString(Some(s)) != Unknown ==> StringForType(TypeForString(Some(s))) == Ok(s)
  {
    if s in {"char", "double", "float", "float2", "float3", "float4"} {
      NameGroup1RoundTrip(s);
    } else if s in {"int", "int2", "int3", "int4", "uint", "uint2", "uint3", "uint4"} {
      NameGroup2RoundTrip(s);
    } else if s in {"uchar", "uchar2", "uchar3", "uchar4", "ushort"} {
      NameGroup3RoundTrip(s);
    }
  }

  /** The round trip for "char", "double" and the four float names. */
  lemma NameGroup1RoundTrip(s: string)
    requires s in {"char", "double", "float", "float2", "float3", "float4"}
    ensures StringForType(TypeForString(Some(s))) == Ok(s)
  {
    var r := TypeForString(Some(s));
    if s == "char" {
      assert r == Char;
    } else if s == "double" {
      assert r == Double;
    } else if s == "float" {
      assert r == Float;
    } else if s == "float2" {
      assert r == Float2;
    } else if s == "float3" {
      assert r == Float3;
    } else if s == "float4" {
      assert r == Float4;
    }
  }

  /** The round trip for the four int and the four uint names. */
  lemma NameGroup2RoundTrip(s: string)
    requires s in {"int", "int2", "int3", "int4", "uint", "uint2", "uint3", "uint4"}
    ensures StringForType(TypeForString(Some(s))) == Ok(s)
  {
    var r := TypeForString(Some(s));
    if s == "int" {
      assert r == Int;
    } else if s == "int2" {
      assert r == Int2;
    } else if s == "int3" {
      assert r == Int3;
    } else if s == "int4" {
      assert r == Int4;
    } else if s == "uint" {
      assert r == UInt;
    } else if s == "uint2" {
      assert r == UInt2;
    } else if s == "uint3" {
      assert r == UInt3;
    } else if s == "uint4" {
      assert r == UInt4;
    }
  }

  /** The round trip for the four uchar names and "ushort". */
  lemma NameGroup3RoundTrip(s: string)
    requires s in {"uchar", "uchar2", "uchar3", "uchar4", "ushort"}
    ensures StringForType(TypeForString(Some(s))) == Ok(s)
  {
    var r := TypeForString(Some(s));
    if s == "uchar" {
      assert r == UChar;
    } else if s == "uchar2" {
      assert r == UChar2;
    } else if s == "uchar3" {
      assert r == UChar3;
    } else if s == "uchar4" {
      assert r == UChar4;
    } else if s == "ushort" {
      assert r == UShort;
    }
  }

  /** Conversely, the name of every tag typeForString can return is
      recognised as that tag: the recognised names are exactly these. */
  lemma ParsedTagRoundTrip(t: DataType)
    requires IsParsedTag(t)
    ensures TypeForString(Some(StringForType(t).value)) == t
  {
    var name := StringForType(t).value;
    assert name in RECOGNISED;
    var r := TypeForString(Some(name));
    NameRoundTrip(name);
    StringForTypeInjective(t, r);
  }

  /** The names of all other listed tags ("long", "ulong", "string",
      "object", "float3a", ...) parse to OSP_UNKNOWN, so for them the round
      trip from tag to name and back fails. */
  lemma UnparsedTagName(t: DataType)
    requires Listed(t) && !IsParsedTag(t)
    ensures TypeForString(Some(StringForType(t).value)) == Unknown
  {
    var name := StringForType(t).value;
    var r := TypeForString(Some(name));
    if r != Unknown {
      NameRoundTrip(name);
      StringForTypeInjective(t, r);
    }
  }

  /** A fingerprint of a name: its length and its first, second and last
      characters, packed into one number. */
  function Code(s: string): int
    requires |s| >= 2
  {
    |s| * 0x100_0000 + s[0] as int * 0x1_0000 + s[1] as int * 0x100 + s[|s| - 1] as int
  }

  /** The fingerprints of the names of stringForType, which all differ. */
  function NameCode(t: DataType): int
    requires Listed(t)
  {
    match t
    case VoidPtr => 0x08766F72
    case Object => 0x066F6274
    case Camera => 0x06636161
    case Data => 0x04646161
    case Device => 0x06646565
    case FrameBuffer => 0x0B667272
    case Geometry => 0x08676579
    case Light => 0x056C6974
    case Material => 0x086D616C
    case Model => 0x056D6F6C
    case Renderer => 0x08726572
    case Texture => 0x07746565
    case TransferFunction => 0x1174726E
    case Volume => 0x06766F65
    case PixelOp => 0x08706970
    case String => 0x06737467
    case Char => 0x04636872
    case UChar => 0x05756372
    case UChar2 => 0x06756332
    case UChar3 => 0x06756333
    case UChar4 => 0x06756334
    case UShort => 0x06757374
    case Int => 0x03696E74
    case Int2 => 0x04696E32
    case Int3 => 0x04696E33
    case Int4 => 0x04696E34
    case UInt => 0x04756974
    case UInt2 => 0x05756932
    case UInt3 => 0x05756933
    case UInt4 => 0x05756934
    case Long => 0x046C6F67
    case Long2 => 0x056C6F32
    case Long3 => 0x056C6F33
    case Long4 => 0x056C6F34
    case ULong => 0x05756C67
    case ULong2 => 0x06756C32
    case ULong3 => 0x06756C33
    case ULong4 => 0x06756C34
    case Float => 0x05666C74
    case Float2 => 0x06666C32
    case Float3 => 0x06666C33
    case Float4 => 0x06666C34
    case Float3A => 0x07666C61
    case Double => 0x06646F65
  }

  lemma NameCodes(t: DataType)
    requires Listed(t)
    ensures |TagName(t)| >= 2 && Code(TagName(t)) == NameCode(t)
  {
    if t in {VoidPtr, Object, Camera, Data, Device, FrameBuffer, Geometry, Light, Material, Model, Renderer, Texture, TransferFunction, Volume, PixelOp} {
      ObjectNameCodes(t);
    } else if t in {String, Char, UChar, UChar2, UChar3, UChar4, UShort, Int, Int2, Int3, Int4, UInt, UInt2, UInt3, UInt4} {
      IntegerNameCodes(t);
    } else {
      WideNameCodes(t);
    }
  }

  lemma ObjectNameCodes(t: DataType)
    requires t in {VoidPtr, Object, Camera, Data, Device, FrameBuffer, Geometry, Light, Material, Model, Renderer, Texture, TransferFunction, Volume, PixelOp}
    ensures |TagName(t)| >= 2 && Code(TagName(t)) == NameCode(t)
  {
  }

  lemma IntegerNameCodes(t: DataType)
    requires t in {String, Char, UChar, UChar2, UChar3, UChar4, UShort, Int, Int2, Int3, Int4, UInt, UInt2, UInt3, UInt4}
    ensures |TagName(t)| >= 2 && Code(TagName(t)) == NameCode(t)
  {
  }

  lemma WideNameCodes(t: DataType)
    requires t in {Long, Long2, Long3, Long4, ULong, ULong2, ULong3, ULong4, Float, Float2, Float3, Float4, Float3A, Double}
    ensures |TagName(t)| >= 2 && Code(TagName(t)) == NameCode(t)
  {
  }

  /** The tag a fingerprint belongs to. */
  function CodeTag(c: int): DataType {
    if c == 0x08766F72 then VoidPtr
    else if c == 0x066F6274 then Object
    else if c == 0x06636161 then Camera
    else if c == 0x04646161 then Data
    else if c == 0x06646565 then Device
    else if c == 0x0B667272 then FrameBuffer
    else if c == 0x08676579 then Geometry
    else if c == 0x056C6974 then Light
    else if c == 0x086D616C then Material
    else if c == 0x056D6F6C then Model
    else if c == 0x08726572 then Renderer
    else if c == 0x07746565 then Texture
    else if c == 0x1174726E then TransferFunction
    else if c == 0x06766F65 then Volume
    else if c == 0x08706970 then PixelOp
    else if c == 0x06737467 then String
    else if c == 0x04636872 then Char
    else if c == 0x05756372 then UChar
    else if c == 0x06756332 then UChar2
    else if c == 0x06756333 then UChar3
    else if c == 0x06756334 then UChar4
    else if c == 0x06757374 then UShort
    else if c == 0x03696E74 then Int
    else if c == 0x04696E32 then Int2
    else if c == 0x04696E33 then Int3
    else if c == 0x04696E34 then Int4
    else if c == 0x04756974 then UInt
    else if c == 0x05756932 then UInt2
    else if c == 0x05756933 then UInt3
    else if c == 0x05756934 then UInt4
    else if c == 0x046C6F67 then Long
    else if c == 0x056C6F32 then Long2
    else if c == 0x056C6F33 then Long3
    else if c == 0x056C6F34 then Long4
    else if c == 0x05756C67 then ULong
    else if c == 0x06756C32 then ULong2
    else if c == 0x06756C33 then ULong3
    else if c == 0x06756C34 then ULong4
    else if c == 0x05666C74 then Float
    else if c == 0x06666C32 then Float2
    else if c == 0x06666C33 then Float3
    else if c == 0x06666C34 then Float4
    else if c == 0x07666C61 then Float3A
    else if c == 0x06646F65 then Double
    else Unknown
  }

  /** Every fingerprint leads back to its own tag. */
  lemma CodeTagInverse(t: DataType)
    requires Listed(t)
    ensures CodeTag(NameCode(t)) == t
  {
    if t in {VoidPtr, Object, Camera, Data, Device, FrameBuffer, Geometry, Light, Material, Model, Renderer, Texture, TransferFunction, Volume, PixelOp} {
      ObjectCodeTags(t);
    } else if t in {String, Char, UChar, UChar2, UChar3, UChar4, UShort, Int, Int2, Int3, Int4, UInt, UInt2, UInt3, UInt4} {
      IntegerCodeTags(t);
    } else {
      WideCodeTags(t);
    }
  }

  lemma ObjectCodeTags(t: DataType)
    requires t in {VoidPtr, Object, Camera, Data, Device, FrameBuffer, Geometry, Light, Material, Model, Renderer, Texture, TransferFunction, Volume, PixelOp}
    ensures CodeTag(NameCode(t)) == t
  {
  }

  lemma IntegerCodeTags(t: DataType)
    requires t in {String, Char, UChar, UChar2, UChar3, UChar4, UShort, Int, Int2, Int3, Int4, UInt, UInt2, UInt3, UInt4}
    ensures CodeTag(NameCode(t)) == t
  {
  }

  lemma WideCodeTags(t: DataType)
    requires t in {Long, Long2, Long3, Long4, ULong, ULong2, ULong3, ULong4, Float, Float2, Float3, Float4, Float3A, Double}
    ensures CodeTag(NameCode(t)) == t
  {
  }

  /** No two listed tags share a name. */
  lemma StringForTypeInjective(a: DataType, b: DataType)
    requires Listed(a) && Listed(b)
    requires StringForType(a) == StringForType(b)
    ensures a == b
  {
    NameCodes(a);
    NameCodes(b);
    CodeTagInverse(a);
    CodeTagInverse(b);
  }
}
