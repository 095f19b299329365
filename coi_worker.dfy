/** The command dispatcher of the coprocessor worker: one method per
    ospray_coi_* verb, over the handle registry, the live engine objects,
    the global upload buffer and the COI buffers the worker has retained. */
module CoiWorker {
  import opened Errors
  import opened Bytes
  import opened OSPTypes
  import opened CoiObjects

  class Worker {
    /** The handle registry (Handle::assign and Handle::lookup). */
    var handles: map<Handle, Addr>
    /** Every live engine object, by address. */
    var objects: map<Addr, ManagedObject>
    /** The global uploadBuffer: the buffer pinned last, null before any. */
    var uploadBuffer: array?<byte>
    /** The COI buffers COIBufferAddRef has retained, with multiplicity. */
    var retained: multiset<array<byte>>
    /** The engine's object factories. */
    const catalogue: Catalogue

    ghost predicate Valid()
      reads this
    {
      RegistryValid(handles, objects)
    }

    constructor (catalogue: Catalogue)
      ensures Valid() && this.catalogue == catalogue
      ensures handles == map[] && objects == map[] && uploadBuffer == null && retained == multiset{}
    {
      this.catalogue := catalogue;
      handles := map[];
      objects := map[];
      uploadBuffer := null;
      retained := multiset{};
    }

    /** handle.lookup() */
    function Lookup(h: Handle): Addr
      reads this
    {
      Resolve(handles, h)
    }

    predicate IsData(a: Addr)
      reads this
    {
      a in objects && objects[a].body.DataBody?
    }

    predicate IsModel(a: Addr)
      reads this
    {
      a in objects && objects[a].body.ModelBody?
    }

    predicate IsGeometry(a: Addr)
      reads this
    {
      a in objects && objects[a].body.GeometryBody?
    }

    predicate IsRenderer(a: Addr)
      reads this
    {
      a in objects && objects[a].body.RendererBody?
    }

    /** The byte array behind a Data object (none for anything else). */
    function StorageOf(a: Addr): set<array<byte>>
      reads this
    {
      if IsData(a) then {objects[a].body.storage} else {}
    }

    /** The type of the renderer at `a`, or None for the null pointer. */
    function RendererType(a: Addr): Option<string>
      reads this
      requires a == NULL || IsRenderer(a)
    {
      if a == NULL then None else Some(objects[a].body.rendererType)
    }

    /** handle.assign(obj) for a newly allocated object at `a`. */
    method Install(h: Handle, a: Addr, o: ManagedObject)
      requires Valid() && a != NULL && a !in objects
      modifies this
      ensures Valid()
      ensures handles == old(handles)[h := a] && objects == old(objects)[a := o]
      ensures uploadBuffer == old(uploadBuffer) && retained == old(retained)
    {
      AssignKeepsRegistry(handles, objects, h, a, o);
      handles := handles[h := a];
      objects := objects[a := o];
    }

    /** handle.assign(obj) with the result of a factory: the new object, or
        the null pointer when the factory built nothing. */
    method Create(h: Handle, a: Addr, product: Option<ManagedObject>)
      requires Valid() && a != NULL && a !in objects
      modifies this
      ensures Valid() && Bound(h, a, product)
    {
      if product.Some? {
        Install(h, a, product.value);
      } else {
        handles := handles[h := NULL];
      }
    }

    /** The loop shared by new_data and upload_data_done: each of the first
        nitems slots of an OBJECT array, read as a Handle, is overwritten by
        the object it names, whose count is bumped; a null handle becomes a
        null pointer. */
    method RewriteObjectSlots(mem: array<byte>, nitems: int32)
      requires Valid()
      requires nitems <= 0 || 8 * nitems <= mem.Length
      requires HandlesBound(handles, mem[..], nitems)
      modifies this, mem
      ensures Valid()
      ensures mem[..] == Rewritten(old(handles), old(mem[..]), nitems)
      ensures objects == Bumped(old(objects), Resolved(old(handles), old(mem[..]), nitems))
      ensures handles == old(handles) && uploadBuffer == old(uploadBuffer) && retained == old(retained)
    {
      ghost var m0 := mem[..];
      ghost var rs := Resolved(handles, m0, nitems);
      assert SlotsResolved(handles, m0, rs);
      var i: int := 0;
      while i < nitems
        invariant 0 <= i <= |rs|
        invariant RewrittenUpTo(mem, m0, old(objects), old(handles), rs, i)
        invariant uploadBuffer == old(uploadBuffer) && retained == old(retained)
        decreases nitems - i
      {
        RewriteStep(mem, m0, old(objects), old(handles), rs, i);
        i := i + 1;
      }
      assert rs[..i] == rs;
    }

    /** The state of the rewrite loop after i slots: those slots hold the
        first i of the objects `rs` that the handles of the original array
        `m0` name, the rest of the array is as it was, and each of those
        objects has been bumped. */
    ghost predicate RewrittenUpTo(mem: array<byte>, m0: seq<byte>, objs0: map<Addr, ManagedObject>,
                                  hs: map<Handle, Addr>, rs: seq<Addr>, i: nat)
      reads this, mem
    {
      i <= |rs| && mem.Length == |m0| && SlotsResolved(hs, m0, rs) &&
      mem[..] == Pack(rs[..i]) + m0[8 * i..] &&
      handles == hs && objects == Bumped(objs0, rs[..i]) && Valid()
    }

    /** One pass of the rewrite loop, at slot i. */
    method RewriteStep(mem: array<byte>, ghost m0: seq<byte>, ghost objs0: map<Addr, ManagedObject>,
                       ghost hs: map<Handle, Addr>, ghost rs: seq<Addr>, i: nat)
      requires i < |rs| && RewrittenUpTo(mem, m0, objs0, hs, rs, i)
      modifies this, mem
      ensures RewrittenUpTo(mem, m0, objs0, hs, rs, i + 1)
      ensures uploadBuffer == old(uploadBuffer) && retained == old(retained)
    {
      var h := ReadSlot(mem, m0, rs, i);
      var a := ResolveSlot(h, m0, rs, i);
      WriteSlot(mem, m0, rs, i, a);
      BumpedStep(objs0, rs, i);
    }

    /** in[i], read from an array whose first i slots are already rewritten. */
    static method ReadSlot(mem: array<byte>, ghost m0: seq<byte>, ghost rs: seq<Addr>, i: nat) returns (h: Handle)
      requires i < |rs| && 8 * |rs| <= |m0| && mem[..] == Pack(rs[..i]) + m0[8 * i..]
      ensures h == Slot(m0, i)
    {
      RewriteSlotStep(rs, m0, i);
      assert mem[8 * i..8 * i + 8] == mem[..][8 * i..8 * i + 8];
      h := Decode64(mem[8 * i..8 * i + 8]);
    }

    /** out[i] = the object rs[i], written over slot i. */
    static method WriteSlot(mem: array<byte>, ghost m0: seq<byte>, ghost rs: seq<Addr>, i: nat, a: Addr)
      requires i < |rs| && 8 * |rs| <= |m0| && mem[..] == Pack(rs[..i]) + m0[8 * i..] && a == rs[i]
      modifies mem
      ensures mem[..] == Pack(rs[..i + 1]) + m0[8 * (i + 1)..]
    {
      RewriteSlotStep(rs, m0, i);
      CopyBytes(mem, 8 * i, Encode64(a));
    }

    /** out[i] = in[i].lookup() and out[i]->refInc() for a set handle; a
        null handle gives a null pointer and bumps nothing. */
    method ResolveSlot(h: Handle, ghost m0: seq<byte>, ghost rs: seq<Addr>, i: nat) returns (a: Addr)
      requires Valid() && i < |rs| && SlotsResolved(handles, m0, rs) && h == Slot(m0, i)
      modifies this
      ensures Valid() && a == rs[i]
      ensures objects == if a == NULL then old(objects) else Bump(old(objects), a)
      ensures handles == old(handles) && uploadBuffer == old(uploadBuffer) && retained == old(retained)
    {
      a := NULL;
      if h != NULL {
        a := Lookup(h);
        assert a in objects;
        objects := objects[a := objects[a].(refCount := objects[a].refCount + 1)];
      }
    }

    /** memcpy(dst + begin, src, |src|). */
    static method CopyBytes(dst: array<byte>, begin: nat, src: seq<byte>)
      requires begin + |src| <= dst.Length
      modifies dst
      ensures dst[..] == Spliced(old(dst[..]), begin, src)
    {
      var j := 0;
      while j < |src|
        invariant 0 <= j <= |src|
        invariant forall k :: 0 <= k < dst.Length && !(begin <= k < begin + j) ==> dst[k] == old(dst[k])
        invariant forall k :: 0 <= k < j ==> dst[begin + k] == src[k]
      {
        dst[begin + j] := src[j];
        j := j + 1;
      }
      assert dst[..] == Spliced(old(dst[..]), begin, src) by {
        SplicedBytes(old(dst[..]), begin, src);
      }
    }

    /** The bookkeeping of a verb that binds handle `h` to the product of a
        factory (allocated at `a`), or to null when the factory built none. */
    twostate predicate Bound(h: Handle, a: Addr, product: Option<ManagedObject>)
      reads this
    {
      (product.Some? ==> handles == old(handles)[h := a] && objects == old(objects)[a := product.value]) &&
      (product.None? ==> handles == old(handles)[h := NULL] && objects == old(objects)) &&
      uploadBuffer == old(uploadBuffer) && retained == old(retained)
    }

    // -------------------------------------------------------------------
    // Binders

    /** ospray_coi_new_model */
    method NewModel(h: Handle, a: Addr)
      requires Valid() && a != NULL && a !in objects
      modifies this
      ensures Valid() && Bound(h, a, Some(Fresh(ModelBody([], 0))))
    {
      Create(h, a, Some(Fresh(ModelBody([], 0))));
    }

    /** ospray_coi_new_trianglemesh */
    method NewTriangleMesh(h: Handle, a: Addr)
      requires Valid() && a != NULL && a !in objects
      modifies this
      ensures Valid() && Bound(h, a, Some(Fresh(GeometryBody(None, NULL))))
    {
      Create(h, a, Some(Fresh(GeometryBody(None, NULL))));
    }

    /** ospray_coi_new_geometry: Geometry::createGeometry(name). */
    method NewGeometry(h: Handle, name: string, a: Addr)
      requires Valid() && a != NULL && a !in objects
      modifies this
      ensures Valid()
      ensures Bound(h, a, if name in catalogue.geometries then Some(Fresh(GeometryBody(Some(name), NULL))) else None)
    {
      var geom: Option<ManagedObject> := None;
      if name in catalogue.geometries {
        geom := Some(Fresh(GeometryBody(Some(name), NULL)));
      }
      Create(h, a, geom);
    }

    /** ospray_coi_new_framebuffer: a LocalFrameBuffer over the host's pixel
        array. */
    method NewFrameBuffer(h: Handle, a: Addr)
      requires Valid() && a != NULL && a !in objects
      modifies this
      ensures Valid() && Bound(h, a, Some(Fresh(EngineBody(FrameBufferKind, None))))
    {
      Create(h, a, Some(Fresh(EngineBody(FrameBufferKind, None))));
    }

    /** ospray_coi_new_camera: Camera::createCamera(name). */
    method NewCamera(h: Handle, name: string, a: Addr)
      requires Valid() && a != NULL && a !in objects
      modifies this
      ensures Valid()
      ensures Bound(h, a, if name in catalogue.cameras then Some(Fresh(EngineBody(CameraKind, Some(name)))) else None)
    {
      var camera: Option<ManagedObject> := None;
      if name in catalogue.cameras {
        camera := Some(Fresh(EngineBody(CameraKind, Some(name))));
      }
      Create(h, a, camera);
    }

    /** ospray_coi_new_volume: Volume::createVolume(name). */
    method NewVolume(h: Handle, name: string, a: Addr)
      requires Valid() && a != NULL && a !in objects
      modifies this
      ensures Valid()
      ensures Bound(h, a, if name in catalogue.volumes then Some(Fresh(EngineBody(VolumeKind, Some(name)))) else None)
    {
      var volume: Option<ManagedObject> := None;
      if name in catalogue.volumes {
        volume := Some(Fresh(EngineBody(VolumeKind, Some(name))));
      }
      Create(h, a, volume);
    }

    /** ospray_coi_new_volume_from_file: Volume::createVolume(filename, name). */
    method NewVolumeFromFile(h: Handle, filename: string, name: string, a: Addr)
      requires Valid() && a != NULL && a !in objects
      modifies this
      ensures Valid()
      ensures Bound(h, a, if (filename, name) in catalogue.volumeFiles then Some(Fresh(EngineBody(VolumeKind, Some(name)))) else None)
    {
      var volume: Option<ManagedObject> := None;
      if (filename, name) in catalogue.volumeFiles {
        volume := Some(Fresh(EngineBody(VolumeKind, Some(name))));
      }
      Create(h, a, volume);
    }

    /** ospray_coi_new_transfer_function: TransferFunction::createTransferFunction(name). */
    method NewTransferFunction(h: Handle, name: string, a: Addr)
      requires Valid() && a != NULL && a !in objects
      modifies this
      ensures Valid()
      ensures Bound(h, a, if name in catalogue.transferFunctions then Some(Fresh(EngineBody(TransferFunctionKind, Some(name)))) else None)
    {
      var tf: Option<ManagedObject> := None;
      if name in catalogue.transferFunctions {
        tf := Some(Fresh(EngineBody(TransferFunctionKind, Some(name))));
      }
      Create(h, a, tf);
    }

    /** ospray_coi_new_renderer: Renderer::createRenderer(name). */
    method NewRenderer(h: Handle, name: string, a: Addr)
      requires Valid() && a != NULL && a !in objects
      modifies this
      ensures Valid()
      ensures Bound(h, a, if name in catalogue.renderers then Some(Fresh(RendererBody(name))) else None)
    {
      var renderer: Option<ManagedObject> := None;
      if name in catalogue.renderers {
        renderer := Some(Fresh(RendererBody(name)));
      }
      Create(h, a, renderer);
    }

    /** ospray_coi_new_texture2d: the texel buffer is retained (the result of
        COIBufferAddRef, `addRefOk`, is not checked) and a texture built
        over it. */
    method NewTexture2D(h: Handle, buffer: array<byte>, addRefOk: bool, a: Addr)
      requires Valid() && a != NULL && a !in objects
      modifies this
      ensures Valid()
      ensures handles == old(handles)[h := a] && objects == old(objects)[a := Fresh(EngineBody(TextureKind, None))]
      ensures retained == old(retained) + (if addRefOk then multiset{buffer} else multiset{})
      ensures uploadBuffer == old(uploadBuffer)
    {
      if addRefOk {
        retained := retained + multiset{buffer};
      }
      Install(h, a, Fresh(EngineBody(TextureKind, None)));
    }

    // -------------------------------------------------------------------
    // Data arrays

    /** ospray_coi_new_data: a Data over the COI buffer itself. The buffer
        is retained first (`addRefOk` is COIBufferAddRef's result); a STRING
        array is then refused; an OBJECT array has its handles rewritten in
        place. */
    method NewData(h: Handle, nitems: int32, format: DataType, flags: int32,
                   buffer: array<byte>, addRefOk: bool, a: Addr) returns (r: Result<()>)
      requires Valid() && a != NULL && a !in objects
      requires addRefOk && format == Object ==>
        (nitems <= 0 || 8 * nitems <= buffer.Length) && HandlesBound(handles, buffer[..], nitems)
      modifies this, buffer
      ensures Valid() && uploadBuffer == old(uploadBuffer)
      ensures !addRefOk ==>
        r == Throw(BufferAddRefFailed) && retained == old(retained) &&
        handles == old(handles) && objects == old(objects) && buffer[..] == old(buffer[..])
      ensures addRefOk ==> retained == old(retained) + multiset{buffer}
      ensures addRefOk && format == String ==>
        r == Throw(StringArraysUnsupported) &&
        handles == old(handles) && objects == old(objects) && buffer[..] == old(buffer[..])
      ensures addRefOk && format == Object ==>
        r == Ok(()) && handles == old(handles)[h := a] &&
        buffer[..] == Rewritten(old(handles), old(buffer[..]), nitems) &&
        objects == Bumped(old(objects), Resolved(old(handles), old(buffer[..]), nitems))
                     [a := Fresh(DataBody(nitems, format, WithShared(flags), buffer))]
      ensures addRefOk && format != String && format != Object ==>
        r == Ok(()) &&
        handles == old(handles)[h := a] && buffer[..] == old(buffer[..]) &&
        objects == old(objects)[a := Fresh(DataBody(nitems, format, WithShared(flags), buffer))]
    {
      if !addRefOk {
        return Throw(BufferAddRefFailed);
      }
      retained := retained + multiset{buffer};
      if format == String {
        return Throw(StringArraysUnsupported);
      }
      if format == Object {
        BumpedCounts(objects, Resolved(handles, buffer[..], nitems));
        RewriteObjectSlots(buffer, nitems);
      }
      Install(h, a, Fresh(DataBody(nitems, format, WithShared(flags), buffer)));
      r := Ok(());
    }

    /** ospray_coi_upload_data_done: sizeOf(format) is evaluated first (and
        throws for a tag outside its table), a STRING array is refused, and
        an OBJECT array bound to `h` has its handles rewritten in place. */
    method UploadDataDone(h: Handle, nitems: int32, format: DataType, flags: int32) returns (r: Result<()>)
      requires Valid()
      requires format == Object ==>
        IsData(Lookup(h)) &&
        (nitems <= 0 || 8 * nitems <= objects[Lookup(h)].body.storage.Length) &&
        HandlesBound(handles, objects[Lookup(h)].body.storage[..], nitems)
      modifies this, StorageOf(Lookup(h))
      ensures Valid() && handles == old(handles) && uploadBuffer == old(uploadBuffer) && retained == old(retained)
      ensures !Listed(format) ==> r == Throw(UnknownDataType)
      ensures format == String ==> r == Throw(StringArraysUnsupported)
      ensures Listed(format) && format != String ==> r == Ok(())
      ensures format != Object ==> objects == old(objects)
      ensures format != Object && old(IsData(Lookup(h))) ==>
        var m := old(objects[Lookup(h)].body.storage); m[..] == old(m[..])
      ensures format == Object ==>
        var m := old(objects[Lookup(h)].body.storage);
        m[..] == Rewritten(old(handles), old(m[..]), nitems) &&
        objects == Bumped(old(objects), Resolved(old(handles), old(m[..]), nitems))
    {
      var data := Lookup(h);
      var size := SizeOf(format);
      if size.Throw? {
        return Throw(size.error);
      }
      if format == String {
        return Throw(StringArraysUnsupported);
      }
      if format == Object {
        RewriteObjectSlots(objects[data].body.storage, nitems);
      }
      r := Ok(());
    }

    /** ospray_coi_upload_data_chunk: memcpy of the first `size` bytes of the
        upload buffer to byte `begin` of the Data bound to `h`. The two
        regions must not overlap, as memcpy demands. */
    method UploadDataChunk(h: Handle, begin: int, size: int)
      requires Valid() && IsData(Lookup(h)) && uploadBuffer != null
      requires 0 <= begin && 0 <= size && size <= uploadBuffer.Length
      requires begin + size <= objects[Lookup(h)].body.storage.Length
      requires objects[Lookup(h)].body.storage != uploadBuffer || size <= begin
      modifies objects[Lookup(h)].body.storage
      ensures var m := objects[Lookup(h)].body.storage;
        m[..] == Spliced(old(m[..]), begin, old(uploadBuffer[..size]))
    {
      var data := Lookup(h);
      CopyBytes(objects[data].body.storage, begin, uploadBuffer[..size]);
    }

    /** ospray_coi_create_new_empty_data: a STRING array is refused; then
        nitems * sizeOf(format) zeroed bytes are allocated (a negative count
        converts to a size_t no allocation satisfies), and a Data over them
        is bound to `h`. */
    method CreateNewEmptyData(h: Handle, nitems: int32, format: DataType, flags: int32, a: Addr)
      returns (r: Result<()>)
      requires Valid() && a != NULL && a !in objects
      modifies this
      ensures Valid() && uploadBuffer == old(uploadBuffer) && retained == old(retained)
      ensures format == String ==>
        r == Throw(StringArraysUnsupported) &&
        handles == old(handles) && objects == old(objects)
      ensures format != String && DataBytes(nitems, format).Throw? ==>
        r == Throw(DataBytes(nitems, format).error) && handles == old(handles) && objects == old(objects)
      ensures format != String && DataBytes(nitems, format).Ok? ==>
        r == Ok(()) && handles == old(handles)[h := a] && IsData(a) &&
        var m := objects[a].body.storage;
        fresh(m) && objects == old(objects)[a := Fresh(DataBody(nitems, format, WithShared(flags), m))] &&
        m.Length == DataBytes(nitems, format).value && forall k :: 0 <= k < m.Length ==> m[k] == 0
    {
      if format == String {
        return Throw(StringArraysUnsupported);
      }
      var size := DataBytes(nitems, format);
      if size.Throw? {
        return Throw(size.error);
      }
      var mem := new byte[size.value];
      Bzero(mem);
      Install(h, a, Fresh(DataBody(nitems, format, WithShared(flags), mem)));
      r := Ok(());
    }

    /** bzero(mem, size) */
    static method Bzero(mem: array<byte>)
      modifies mem
      ensures forall k :: 0 <= k < mem.Length ==> mem[k] == 0
    {
      var j := 0;
      while j < mem.Length
        invariant 0 <= j <= mem.Length
        invariant forall k :: 0 <= k < j ==> mem[k] == 0
      {
        mem[j] := 0;
        j := j + 1;
      }
    }

    /** ospray_coi_pin_upload_buffer: the buffer pinned last is the one the
        next chunks are copied from. */
    method PinUploadBuffer(buffer: array<byte>)
      modifies this
      ensures uploadBuffer == buffer
      ensures handles == old(handles) && objects == old(objects) && retained == old(retained)
    {
      uploadBuffer := buffer;
    }

    // -------------------------------------------------------------------
    // Materials and lights

    /** ospray_coi_new_material: the renderer's createMaterial (when the
        renderer handle is bound), then Material::createMaterial; returns
        whether a material was built, and binds `h` only then. */
    method NewMaterial(h: Handle, rendererHandle: Handle, name: string, a: Addr) returns (made: bool)
      requires Valid() && a != NULL && a !in objects
      requires Lookup(rendererHandle) == NULL || IsRenderer(Lookup(rendererHandle))
      modifies this
      ensures Valid() && uploadBuffer == old(uploadBuffer) && retained == old(retained)
      ensures var origin := Fallback(old(RendererType(Lookup(rendererHandle))), catalogue.rendererMaterials,
                                     catalogue.materials, name);
        made == origin.Some? &&
        (made ==> handles == old(handles)[h := a] && objects == old(objects)[a := Fresh(MaterialBody(name, origin.value))]) &&
        (!made ==> handles == old(handles) && objects == old(objects))
    {
      var renderer := Lookup(rendererHandle);
      var mat: Option<Origin> := None;
      if renderer != NULL {
        var rtype := objects[renderer].body.rendererType;
        if Builds(catalogue.rendererMaterials, rtype, name) {
          mat := Some(FromRenderer(rtype));
        }
      }
      if mat.None? && name in catalogue.materials {
        mat := Some(FromGlobal);
      }
      if mat.Some? {
        made := true;
        Install(h, a, Fresh(MaterialBody(name, mat.value)));
      } else {
        made := false;
      }
    }

    /** ospray_coi_new_light: the same fallback through createLight, then
        assert(light) before `h` is bound. */
    method NewLight(h: Handle, rendererHandle: Handle, name: string, a: Addr) returns (r: Result<()>)
      requires Valid() && a != NULL && a !in objects
      requires Lookup(rendererHandle) == NULL || IsRenderer(Lookup(rendererHandle))
      modifies this
      ensures Valid() && uploadBuffer == old(uploadBuffer) && retained == old(retained)
      ensures var origin := Fallback(old(RendererType(Lookup(rendererHandle))), catalogue.rendererLights,
                                     catalogue.lights, name);
        (origin.None? ==> r == Throw(AssertionFailed) && handles == old(handles) && objects == old(objects)) &&
        (origin.Some? ==> r == Ok(()) && handles == old(handles)[h := a] &&
                          objects == old(objects)[a := Fresh(LightBody(name, origin.value))])
    {
      var renderer := Lookup(rendererHandle);
      var light: Option<Origin> := None;
      if renderer != NULL {
        var rtype := objects[renderer].body.rendererType;
        if Builds(catalogue.rendererLights, rtype, name) {
          light := Some(FromRenderer(rtype));
        }
      }
      if light.None? && name in catalogue.lights {
        light := Some(FromGlobal);
      }
      if light.None? {
        return Throw(AssertionFailed);
      }
      Install(h, a, Fresh(LightBody(name, light.value)));
      r := Ok(());
    }

    // -------------------------------------------------------------------
    // Models, geometries, commit and parameters

    /** ospray_coi_add_geometry: push_back of whatever the geometry handle
        names (null included) onto the model's geometry vector. */
    method AddGeometry(modelHandle: Handle, geomHandle: Handle)
      requires Valid() && IsModel(Lookup(modelHandle))
      modifies this
      ensures Valid() && handles == old(handles) && uploadBuffer == old(uploadBuffer) && retained == old(retained)
      ensures var m := old(Lookup(modelHandle)); var o := old(objects[m]);
        objects == old(objects)[m := o.(body := o.body.(geometry := o.body.geometry + [old(Lookup(geomHandle))]))]
    {
      var m := Lookup(modelHandle);
      var o := objects[m];
      objects := objects[m := o.(body := o.body.(geometry := o.body.geometry + [Lookup(geomHandle)]))];
    }

    /** ospray_coi_set_material: the geometry records whatever the material
        handle names. */
    method SetMaterial(geomHandle: Handle, matHandle: Handle)
      requires Valid() && IsGeometry(Lookup(geomHandle))
      modifies this
      ensures Valid() && handles == old(handles) && uploadBuffer == old(uploadBuffer) && retained == old(retained)
      ensures var g := old(Lookup(geomHandle)); var o := old(objects[g]);
        objects == old(objects)[g := o.(body := o.body.(material := old(Lookup(matHandle))))]
    {
      var g := Lookup(geomHandle);
      var o := objects[g];
      objects := objects[g := o.(body := o.body.(material := Lookup(matHandle)))];
    }

    /** ospray_coi_commit: Assert(obj), obj->commit(), and for a Model its
        finalize; no other object changes. */
    method Commit(h: Handle) returns (r: Result<()>)
      requires Valid()
      modifies this
      ensures Valid() && handles == old(handles) && uploadBuffer == old(uploadBuffer) && retained == old(retained)
      ensures old(Lookup(h)) == NULL ==> r == Throw(AssertionFailed) && objects == old(objects)
      ensures old(Lookup(h)) != NULL ==>
        r == Ok(()) && old(Lookup(h)) in old(objects) &&
        objects == old(objects)[Lookup(h) := Committed(old(objects[Lookup(h)]))]
    {
      var obj := Lookup(h);
      if obj == NULL {
        return Throw(AssertionFailed);
      }
      assert obj in objects;
      objects := objects[obj := Committed(objects[obj])];
      r := Ok(());
    }

    /** The loop of std::find_if with a GeometryLocator: the first entry
        equal to `g`. */
    static method FindGeometry(geometry: seq<Addr>, g: Addr) returns (k: nat)
      ensures k == FirstIndex(geometry, g)
    {
      k := 0;
      while k < |geometry| && geometry[k] != g
        invariant k <= |geometry|
        invariant forall j :: 0 <= j < k ==> geometry[j] != g
      {
        k := k + 1;
      }
    }

    /** ospray_coi_remove_geometry: erase the first entry of the model's
        geometry vector that is the named geometry, if there is one. */
    method RemoveGeometry(modelHandle: Handle, geomHandle: Handle)
      requires Valid() && IsModel(Lookup(modelHandle))
      modifies this
      ensures Valid() && handles == old(handles) && uploadBuffer == old(uploadBuffer) && retained == old(retained)
      ensures var m := old(Lookup(modelHandle)); var o := old(objects[m]);
        objects == old(objects)[m := o.(body := o.body.(geometry := RemoveFirst(o.body.geometry, old(Lookup(geomHandle)))))]
    {
      var m := Lookup(modelHandle);
      var o := objects[m];
      var geometry := o.body.geometry;
      var k := FindGeometry(geometry, Lookup(geomHandle));
      if k < |geometry| {
        objects := objects[m := o.(body := o.body.(geometry := geometry[..k] + geometry[k + 1..]))];
      }
    }

    /** ospray_coi_set_value: an unbound target returns before the tag is
        read; otherwise the value the tag selects is stored under `name`, and
        a tag without a case throws. */
    method SetValue(target: Handle, name: string, tag: DataType, arg: Payload) returns (r: Result<()>)
      requires Valid() && Announced(tag, arg)
      modifies this
      ensures Valid() && handles == old(handles) && uploadBuffer == old(uploadBuffer) && retained == old(retained)
      ensures old(Lookup(target)) == NULL ==> r == Ok(()) && objects == old(objects)
      ensures old(Lookup(target)) != NULL ==>
        var a := old(Lookup(target)); var v := StoredValue(old(handles), tag, arg);
        a in old(objects) &&
        (v.Throw? ==> r == Throw(UnsupportedValueType) && objects == old(objects)) &&
        (v.Ok? ==> r == Ok(()) && objects == WithParam(old(objects), a, name, v.value))
    {
      var obj := Lookup(target);
      if obj == NULL {
        return Ok(());
      }
      assert obj in objects;
      var value: Value;
      if NumericSettable(tag) {
        value := Numeric(tag, arg.bytes);
      } else if tag == String {
        value := Text(arg.s);
      } else if tag == Object {
        value := Ref(Lookup(arg.h));
      } else {
        return Throw(UnsupportedValueType);
      }
      assert StoredValue(handles, tag, arg) == Ok(value);
      WithParamKeepsRegistry(handles, objects, obj, name, value);
      objects := WithParam(objects, obj, name, value);
      r := Ok(());
    }
  }
}
