/** The engine objects the coprocessor worker creates, the handle registry
    that names them, and the pure facts its verbs rely on: resolving the
    handles of an OBJECT array, the reference counts that resolution bumps,
    the splice of an uploaded chunk, the size of a fresh buffer, the removal
    of the first matching geometry, the material and light factory fallback
    and the values set_value stores. */
module CoiObjects {
  import opened Errors
  import opened Bytes
  import opened OSPTypes

  /** The 64-bit name under which the host refers to an object. */
  type Handle = u64

  /** The address of an engine object on the coprocessor. */
  type Addr = u64

  /** The null handle and the null pointer. */
  const NULL: u64 := 0

  /** The `int32` arguments of the verbs. */
  type int32 = x: int | -0x8000_0000 <= x < 0x8000_0000

  /** A parameter value stored by ManagedObject::set. Numeric values are kept
      as the bytes the host sent, never interpreted. */
  datatype Value = Numeric(tag: DataType, bits: seq<byte>) | Text(s: string) | Ref(addr: Addr)

  /** The engine objects other than models, data arrays, geometries,
      renderers, materials and lights, whose state the worker never inspects. */
  datatype Kind = FrameBufferKind | CameraKind | VolumeKind | TransferFunctionKind | TextureKind

  /** Where a material or light came from: the renderer's own factory (named
      by the renderer's type) or the global one. */
  datatype Origin = FromRenderer(rendererType: string) | FromGlobal

  /** The part of an object that depends on its class. A geometry built
      directly as a TriangleMesh has no factory name. */
  datatype Body =
    | ModelBody(geometry: seq<Addr>, finalized: nat)
    | DataBody(nitems: int32, format: DataType, flags: int32, storage: array<byte>)
    | GeometryBody(factory: Option<string>, material: Addr)
    | RendererBody(rendererType: string)
    | MaterialBody(materialType: string, materialOrigin: Origin)
    | LightBody(lightType: string, lightOrigin: Origin)
    | EngineBody(kind: Kind, engineType: Option<string>)

  /** A ManagedObject: its reference count, its named parameters, how often
      it was committed, and its class-specific part. */
  datatype ManagedObject = ManagedObject(refCount: int, params: map<string, Value>, commits: nat, body: Body)

  /** A freshly constructed object: no references, no parameters. */
  function Fresh(body: Body): (o: ManagedObject)
    ensures o.refCount == 0 && o.params == map[] && o.commits == 0 && o.body == body
  {
    ManagedObject(0, map[], 0, body)
  }

  /** The engine factories: the type names each one can build an object for
      (createGeometry, createCamera, ...), and for materials and lights, per
      renderer type, the names that renderer's own factory builds. */
  datatype Catalogue = Catalogue(
    geometries: set<string>, cameras: set<string>, volumes: set<string>,
    volumeFiles: set<(string, string)>, transferFunctions: set<string>,
    renderers: set<string>, materials: set<string>, lights: set<string>,
    rendererMaterials: map<string, set<string>>, rendererLights: map<string, set<string>>)

  // ---------------------------------------------------------------------
  // The handle registry

  /** Handle::lookup: the object bound to `h`; the null handle and an unbound
      handle give the null pointer. */
  function Resolve(handles: map<Handle, Addr>, h: Handle): (a: Addr)
    ensures h == NULL ==> a == NULL
    ensures h != NULL && h in handles ==> a == handles[h]
    ensures a != NULL ==> h in handles && handles[h] == a
  {
    if h != NULL && h in handles then handles[h] else NULL
  }

  /** Every bound handle names a live object, and no object lives at null. */
  predicate RegistryValid(handles: map<Handle, Addr>, objects: map<Addr, ManagedObject>) {
    NULL !in objects && forall h | h in handles :: handles[h] == NULL || handles[h] in objects
  }

  /** Binding a handle to a new object keeps the registry valid, and every
      other handle still resolves as before. */
  lemma AssignKeepsRegistry(handles: map<Handle, Addr>, objects: map<Addr, ManagedObject>,
                            h: Handle, a: Addr, o: ManagedObject)
    requires RegistryValid(handles, objects) && a != NULL
    ensures RegistryValid(handles[h := a], objects[a := o])
    ensures h != NULL ==> Resolve(handles[h := a], h) == a
    ensures forall g :: g != h ==> Resolve(handles[h := a], g) == Resolve(handles, g)
  {
  }

  // ---------------------------------------------------------------------
  // The Handle -> object rewrite of OBJECT arrays

  /** The objects the handles `ws` name, slot by slot. */
  function ResolveAll(handles: map<Handle, Addr>, ws: seq<u64>): (r: seq<Addr>)
    ensures |r| == |ws|
    ensures forall k :: 0 <= k < |ws| ==> r[k] == Resolve(handles, ws[k])
  {
    seq(|ws|, k requires 0 <= k < |ws| => Resolve(handles, ws[k]))
  }

  /** The slots of an OBJECT array whose handles are set all name objects. */
  predicate HandlesBound(handles: map<Handle, Addr>, mem: seq<byte>, n: int)
    requires n <= 0 || 8 * n <= |mem|
  {
    forall k :: 0 <= k < n ==> Slot(mem, k) == NULL || Resolve(handles, Slot(mem, k)) != NULL
  }

  /** An OBJECT array after its first n slots have been rewritten from
      handles to the objects they name. */
  function Rewritten(handles: map<Handle, Addr>, mem: seq<byte>, n: int): (r: seq<byte>)
    requires n <= 0 || 8 * n <= |mem|
    ensures |r| == |mem|
  {
    if n <= 0 then mem else Pack(ResolveAll(handles, Slots(mem, n))) + mem[8 * n..]
  }

  /** Each of the first n slots holds the object its handle named, null
      handles become null pointers, and every byte after them is unchanged. */
  lemma RewrittenSlots(handles: map<Handle, Addr>, mem: seq<byte>, n: int)
    requires n <= 0 || 8 * n <= |mem|
    ensures |Rewritten(handles, mem, n)| == |mem|
    ensures forall k :: 0 <= k < n ==> Slot(Rewritten(handles, mem, n), k) == Resolve(handles, Slot(mem, k))
    ensures forall k :: 0 <= k < n && Slot(mem, k) == NULL ==> Slot(Rewritten(handles, mem, n), k) == NULL
    ensures n > 0 ==> Rewritten(handles, mem, n)[8 * n..] == mem[8 * n..]
  {
    if n > 0 {
      var rs := ResolveAll(handles, Slots(mem, n));
      forall k | 0 <= k < n
        ensures Slot(Rewritten(handles, mem, n), k) == Resolve(handles, Slot(mem, k))
      {
        SlotOfPack(rs, mem[8 * n..], k);
      }
    }
  }

  /** The objects the first n slots of an OBJECT array name (none when n is
      not positive). */
  function Resolved(handles: map<Handle, Addr>, mem: seq<byte>, n: int): (r: seq<Addr>)
    requires n <= 0 || 8 * n <= |mem|
    ensures |r| == if n <= 0 then 0 else n
    ensures forall k :: 0 <= k < |r| ==> r[k] == Resolve(handles, Slot(mem, k))
  {
    if n <= 0 then [] else ResolveAll(handles, Slots(mem, n))
  }

  /** The handles of the original array `m0` and the objects each resolves
      to, with every set handle naming an object. */
  predicate SlotsResolved(handles: map<Handle, Addr>, m0: seq<byte>, rs: seq<Addr>) {
    8 * |rs| <= |m0| &&
    (forall k :: 0 <= k < |rs| ==> rs[k] == Resolve(handles, Slot(m0, k))) &&
    (forall k :: 0 <= k < |rs| ==> Slot(m0, k) == NULL || rs[k] != NULL)
  }

  /** While i slots of `m0` have been rewritten, slot i still holds its
      handle, and writing its object there extends the rewritten prefix. */
  lemma RewriteSlotStep(rs: seq<Addr>, m0: seq<byte>, i: nat)
    requires i < |rs| && 8 * |rs| <= |m0|
    ensures 8 * i + 8 <= |Pack(rs[..i]) + m0[8 * i..]|
    ensures (Pack(rs[..i]) + m0[8 * i..])[8 * i..8 * i + 8] == m0[8 * i..8 * i + 8]
    ensures Spliced(Pack(rs[..i]) + m0[8 * i..], 8 * i, Encode64(rs[i])) == Pack(rs[..i + 1]) + m0[8 * (i + 1)..]
  {
    var p, tail := rs[..i], m0[8 * i..];
    var q := Pack(p);
    assert (q + tail)[8 * i..8 * i + 8] == tail[..8] == m0[8 * i..8 * i + 8];
    assert rs[..i + 1][..i] == p;
    assert Pack(rs[..i + 1]) == q + Encode64(rs[i]);
    assert (q + tail)[..8 * i] == q;
    assert (q + tail)[8 * i + 8..] == tail[8..] == m0[8 * (i + 1)..];
  }

  /** refInc on the object at `a`. */
  function Bump(objects: map<Addr, ManagedObject>, a: Addr): map<Addr, ManagedObject> {
    if a in objects then objects[a := objects[a].(refCount := objects[a].refCount + 1)] else objects
  }

  /** refInc on each non-null object of `targets`, first to last. */
  function Bumped(objects: map<Addr, ManagedObject>, targets: seq<Addr>): map<Addr, ManagedObject>
    decreases |targets|
  {
    if targets == [] then objects
    else if targets[|targets| - 1] == NULL then Bumped(objects, targets[..|targets| - 1])
    else Bump(Bumped(objects, targets[..|targets| - 1]), targets[|targets| - 1])
  }

  /** One more slot bumps one more object, unless it is null. */
  lemma BumpedStep(objects: map<Addr, ManagedObject>, rs: seq<Addr>, i: nat)
    requires i < |rs|
    ensures Bumped(objects, rs[..i + 1]) ==
            if rs[i] == NULL then Bumped(objects, rs[..i]) else Bump(Bumped(objects, rs[..i]), rs[i])
  {
    assert rs[..i + 1][..i] == rs[..i];
  }

  /** The objects whose counts change are those named, each by exactly the
      number of slots naming it; nothing else about any object changes. */
  lemma {:induction false} BumpedCounts(objects: map<Addr, ManagedObject>, targets: seq<Addr>)
    requires NULL !in objects
    ensures Bumped(objects, targets).Keys == objects.Keys
    ensures forall a | a in objects ::
      Bumped(objects, targets)[a] == objects[a].(refCount := objects[a].refCount + multiset(targets)[a])
    decreases |targets|
  {
    if targets != [] {
      var front, last := targets[..|targets| - 1], targets[|targets| - 1];
      assert targets == front + [last];
      BumpedCounts(objects, front);
    }
  }

  /** Resolving two arrays in turn bumps each object by the sum of the two
      counts. */
  lemma {:induction false} BumpedAppend(objects: map<Addr, ManagedObject>, xs: seq<Addr>, ys: seq<Addr>)
    ensures Bumped(objects, xs + ys) == Bumped(Bumped(objects, xs), ys)
    decreases |ys|
  {
    if ys == [] {
      assert xs + ys == xs;
    } else {
      var front, last := ys[..|ys| - 1], ys[|ys| - 1];
      assert (xs + ys)[..|xs + ys| - 1] == xs + front;
      BumpedAppend(objects, xs, front);
    }
  }

  /** new_data and upload_data_done both rewrite an OBJECT array; run on the
      same array, the second pass reads the object pointers the first one
      wrote as handles, and the counts rise once for each pass. */
  lemma RewriteTwice(handles: map<Handle, Addr>, objects: map<Addr, ManagedObject>, mem: seq<byte>, n: int)
    requires NULL !in objects && (n <= 0 || 8 * n <= |mem|)
    requires HandlesBound(handles, mem, n) && HandlesBound(handles, Rewritten(handles, mem, n), n)
    ensures forall k :: 0 <= k < n ==>
      SecondPass(handles, mem, n)[k] == Resolve(handles, Resolved(handles, mem, n)[k])
    ensures Bumped(Bumped(objects, Resolved(handles, mem, n)), SecondPass(handles, mem, n)).Keys == objects.Keys
    ensures forall a | a in objects ::
      Bumped(Bumped(objects, Resolved(handles, mem, n)), SecondPass(handles, mem, n))[a].refCount ==
      objects[a].refCount + multiset(Resolved(handles, mem, n))[a] + multiset(SecondPass(handles, mem, n))[a]
  {
    var first, second := Resolved(handles, mem, n), SecondPass(handles, mem, n);
    RewrittenSlots(handles, mem, n);
    forall k | 0 <= k < n
      ensures second[k] == Resolve(handles, first[k])
    {
      assert second[k] == Resolve(handles, Slot(Rewritten(handles, mem, n), k));
    }
    BumpedTwice(objects, first, second);
  }

  /** The objects the second pass over an already rewritten array resolves. */
  function SecondPass(handles: map<Handle, Addr>, mem: seq<byte>, n: int): (r: seq<Addr>)
    requires n <= 0 || 8 * n <= |mem|
    ensures |r| == if n <= 0 then 0 else n
  {
    Resolved(handles, Rewritten(handles, mem, n), n)
  }

  /** Bumping for two arrays in turn raises each count by both multiplicities. */
  lemma BumpedTwice(objects: map<Addr, ManagedObject>, first: seq<Addr>, second: seq<Addr>)
    requires NULL !in objects
    ensures Bumped(Bumped(objects, first), second).Keys == objects.Keys
    ensures forall a | a in objects ::
      Bumped(Bumped(objects, first), second)[a].refCount == objects[a].refCount + multiset(first)[a] + multiset(second)[a]
  {
    BumpedAppend(objects, first, second);
    BumpedCounts(objects, first + second);
  }

  // ---------------------------------------------------------------------
  // Flags, fresh buffers and chunks

  /** OSP_DATA_SHARED_BUFFER, bit 0 of the data creation flags. */
  const SHARED_BUFFER: nat := 1

  /** flags | OSP_DATA_SHARED_BUFFER on a two's complement int32. */
  function WithShared(flags: int32): int32 {
    if flags % 2 == 1 then flags else flags + 1
  }

  /** The shared-buffer bit is set afterwards, and every other bit is as
      before (the bits above bit 0 are flags / 2, as an arithmetic shift). */
  lemma WithSharedBits(flags: int32)
    ensures WithShared(flags) % 2 == SHARED_BUFFER
    ensures WithShared(flags) / 2 == flags / 2
    ensures flags % 2 == SHARED_BUFFER ==> WithShared(flags) == flags
  {
  }

  /** The size in bytes of nitems elements of `format`, as size_t holds it;
      a negative count converts to a size no allocation can satisfy. */
  function DataBytes(nitems: int32, format: DataType): (r: Result<nat>)
    ensures r.Ok? <==> Listed(format) && nitems >= 0
    ensures r.Ok? ==> r.value == nitems * SizeOf(format).value && r.value < TWO_64
    ensures r.Throw? ==> r.error == (if Listed(format) then BadAlloc else UnknownDataType)
  {
    match SizeOf(format)
    case Throw(e) => Throw(e)
    case Ok(w) =>
      assert w <= 32;
      if nitems < 0 then Throw(BadAlloc) else Ok(nitems * w)
  }

  /** `dst` with the bytes from `begin` on overwritten by `src`. */
  function Spliced(dst: seq<byte>, begin: nat, src: seq<byte>): seq<byte>
    requires begin + |src| <= |dst|
  {
    dst[..begin] + src + dst[begin + |src|..]
  }

  /** The chunk lands at begin and nothing else moves. */
  lemma SplicedBytes(dst: seq<byte>, begin: nat, src: seq<byte>)
    requires begin + |src| <= |dst|
    ensures |Spliced(dst, begin, src)| == |dst|
    ensures forall k :: 0 <= k < |src| ==> Spliced(dst, begin, src)[begin + k] == src[k]
    ensures forall k :: 0 <= k < |dst| && !(begin <= k < begin + |src|) ==> Spliced(dst, begin, src)[k] == dst[k]
  {
  }

  /** Uploading the same chunk twice leaves what uploading it once does. */
  lemma SplicedTwice(dst: seq<byte>, begin: nat, src: seq<byte>)
    requires begin + |src| <= |dst|
    ensures |Spliced(dst, begin, src)| == |dst|
    ensures Spliced(Spliced(dst, begin, src), begin, src) == Spliced(dst, begin, src)
  {
    var once := Spliced(dst, begin, src);
    assert once[..begin] == dst[..begin];
    assert once[begin + |src|..] == dst[begin + |src|..];
  }

  // ---------------------------------------------------------------------
  // A model's geometry vector

  /** The index std::find_if stops at: the first entry equal to `x`, or the
      length when there is none. */
  function FirstIndex(s: seq<Addr>, x: Addr): (r: nat)
    ensures r <= |s|
    ensures r < |s| ==> s[r] == x
    ensures forall k :: 0 <= k < r ==> s[k] != x
    ensures r == |s| <==> x !in s
  {
    if s == [] then 0 else if s[0] == x then 0 else 1 + FirstIndex(s[1..], x)
  }

  /** The vector after erasing the entry FirstIndex finds, if any. */
  function RemoveFirst(s: seq<Addr>, x: Addr): seq<Addr> {
    var k := FirstIndex(s, x);
    if k == |s| then s else s[..k] + s[k + 1..]
  }

  /** Removal erases only the first match, keeping the rest in order; with no
      match nothing changes. */
  lemma RemoveFirstSpec(s: seq<Addr>, x: Addr)
    ensures x !in s ==> RemoveFirst(s, x) == s
    ensures x in s ==>
      var k := FirstIndex(s, x);
      |RemoveFirst(s, x)| == |s| - 1 && x !in s[..k] &&
      s == RemoveFirst(s, x)[..k] + [x] + RemoveFirst(s, x)[k..]
  {
    var k := FirstIndex(s, x);
    if k < |s| {
      var r := RemoveFirst(s, x);
      assert r[..k] == s[..k] && r[k..] == s[k + 1..];
      assert s == s[..k] + [x] + s[k + 1..];
      assert x !in s[..k] by {
        forall j | 0 <= j < k ensures s[..k][j] != x {}
      }
    }
  }

  /** Exactly one occurrence of the pointer leaves the vector, if it had one. */
  lemma RemoveFirstCounts(s: seq<Addr>, x: Addr)
    ensures multiset(RemoveFirst(s, x)) == multiset(s) - multiset{x}
  {
    var k := FirstIndex(s, x);
    if k < |s| {
      var front, back := s[..k], s[k + 1..];
      assert s == front + [x] + back;
      calc {
        multiset(s);
        multiset(front + [x]) + multiset(back);
        multiset(front) + multiset{x} + multiset(back);
      }
      assert RemoveFirst(s, x) == front + back;
    } else {
      assert x !in multiset(s);
    }
  }

  /** add_geometry then remove_geometry of the same pointer gives the
      original vector back when the pointer was not already in it. */
  lemma AddThenRemove(s: seq<Addr>, x: Addr)
    requires x !in s
    ensures RemoveFirst(s + [x], x) == s
  {
    assert FirstIndex(s + [x], x) == |s|;
    assert (s + [x])[..|s|] == s;
  }

  // ---------------------------------------------------------------------
  // Factories with a fallback

  /** Whether the factory of renderer type `rendererType` builds `name`. */
  predicate Builds(table: map<string, set<string>>, rendererType: string, name: string) {
    rendererType in table && name in table[rendererType]
  }

  /** new_material and new_light: the renderer's factory when there is a
      renderer, and the global factory when that gave nothing. */
  function Fallback(renderer: Option<string>, table: map<string, set<string>>, global: set<string>,
                    name: string): (r: Option<Origin>)
    ensures r.Some? <==> (renderer.Some? && Builds(table, renderer.value, name)) || name in global
    ensures r == Some(FromGlobal) ==> name in global && !(renderer.Some? && Builds(table, renderer.value, name))
    ensures r.Some? && r.value.FromRenderer? ==> renderer == Some(r.value.rendererType) && Builds(table, r.value.rendererType, name)
  {
    if renderer.Some? && Builds(table, renderer.value, name) then Some(FromRenderer(renderer.value))
    else if name in global then Some(FromGlobal)
    else None
  }

  /** The renderer's factory always takes precedence over the global one. */
  lemma RendererFirst(renderer: string, table: map<string, set<string>>, global: set<string>, name: string)
    requires Builds(table, renderer, name)
    ensures Fallback(Some(renderer), table, global, name) == Some(FromRenderer(renderer))
  {
  }

  /** Without a renderer only the global factory is consulted. */
  lemma NoRendererGlobalOnly(table: map<string, set<string>>, global: set<string>, name: string)
    ensures Fallback(None, table, global, name) == if name in global then Some(FromGlobal) else None
  {
  }

  // ---------------------------------------------------------------------
  // commit and set_value

  /** obj->commit(), and for a Model the finalize that follows it. */
  function Committed(o: ManagedObject): (r: ManagedObject)
    ensures r.commits == o.commits + 1
    ensures r.refCount == o.refCount && r.params == o.params
    ensures r.body.ModelBody? <==> o.body.ModelBody?
    ensures o.body.ModelBody? ==> r.body == o.body.(finalized := o.body.finalized + 1)
    ensures !o.body.ModelBody? ==> r.body == o.body
  {
    var c := o.(commits := o.commits + 1);
    if o.body.ModelBody? then c.(body := o.body.(finalized := o.body.finalized + 1)) else c
  }

  /** What follows the type tag in set_value's argument stream: the raw bytes
      of a numeric value, a string, or a handle. */
  datatype Payload = Bits(bytes: seq<byte>) | Chars(s: string) | HandleRef(h: Handle)

  /** The tags set_value has a case for. */
  predicate Settable(tag: DataType) {
    match tag
    case Int | Int2 | Int3 | Int4 | UInt | UInt2 | UInt3 | UInt4
       | Float | Float2 | Float3 | Float4 | String | Object => true
    case _ => false
  }

  /** The numeric tags among them. */
  predicate NumericSettable(tag: DataType) {
    Settable(tag) && tag != String && tag != Object
  }

  /** The stream holds what the tag announces: for a numeric tag exactly the
      bytes of one value of that type (vec3i and vec3f are 12 bytes). */
  predicate Announced(tag: DataType, arg: Payload) {
    if NumericSettable(tag) then arg.Bits? && SizeOf(tag).Ok? && |arg.bytes| == SizeOf(tag).value
    else if tag == String then arg.Chars?
    else if tag == Object then arg.HandleRef?
    else true
  }

  /** The value set_value stores for `tag`, or the throw of its default case. */
  function StoredValue(handles: map<Handle, Addr>, tag: DataType, arg: Payload): (r: Result<Value>)
    requires Announced(tag, arg)
    ensures r.Ok? <==> Settable(tag)
    ensures r.Throw? ==> r.error == UnsupportedValueType
  {
    if NumericSettable(tag) then Ok(Numeric(tag, arg.bytes))
    else if tag == String then Ok(Text(arg.s))
    else if tag == Object then Ok(Ref(Resolve(handles, arg.h)))
    else Throw(UnsupportedValueType)
  }

  /** The object table once the object at `a` holds `v` under `name`. */
  function WithParam(objects: map<Addr, ManagedObject>, a: Addr, name: string, v: Value): map<Addr, ManagedObject>
    requires a in objects
  {
    objects[a := objects[a].(params := objects[a].params[name := v])]
  }

  /** Setting a parameter keeps every object alive and the registry valid. */
  lemma WithParamKeepsRegistry(handles: map<Handle, Addr>, objects: map<Addr, ManagedObject>,
                               a: Addr, name: string, v: Value)
    requires RegistryValid(handles, objects) && a in objects
    ensures WithParam(objects, a, name, v).Keys == objects.Keys
    ensures RegistryValid(handles, WithParam(objects, a, name, v))
  {
  }

  /** Numeric values are stored with their tag and exactly the bytes sent; an
      OBJECT value is the object its handle names (null for a null handle);
      a string is stored as sent. */
  lemma StoredValueShape(handles: map<Handle, Addr>, tag: DataType, arg: Payload)
    requires Announced(tag, arg) && Settable(tag)
    ensures NumericSettable(tag) ==>
      StoredValue(handles, tag, arg) == Ok(Numeric(tag, arg.bytes)) &&
      |arg.bytes| == 4 * Components(tag)
    ensures tag == String ==> StoredValue(handles, tag, arg) == Ok(Text(arg.s))
    ensures tag == Object ==> StoredValue(handles, tag, arg) == Ok(Ref(Resolve(handles, arg.h)))
  {
    if NumericSettable(tag) {
      SizeOfNumeric(tag);
    }
  }
}
