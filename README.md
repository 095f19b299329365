# OSPRay coprocessor worker and common helpers, in Dafny

This project models two parts of OSPRay and proves properties about them.

The first part is the command dispatcher of the COI (Xeon Phi) coprocessor
worker, `ospray/api/coidevice_worker.cpp`. The host drives the coprocessor
through the `ospray_coi_*` verbs. Each verb reads its arguments from a stream
and updates the worker's state:

- the handle registry, which maps the host's 64-bit handles to engine objects;
- the live engine objects themselves: models, data arrays, geometries,
  renderers, materials, lights and the opaque rest;
- the global upload buffer;
- the COI buffers the worker has retained.

The second part is the small helpers of `ospray/common/OSPCommon.cpp`:

- the two `sizeOf` tables;
- the type-name tables `typeForString` and `stringForType`;
- `removeArgs` and the `--osp:` argument loop of `init`;
- the debugging checksum `computeCheckSum`.

The modules are:

| file | module | contents |
|---|---|---|
| `errors.dfy` | `Errors` | the exceptions, failed asserts and crashes as an `Error`; `Option` and `Result` |
| `bytes.dfy` | `Bytes` | bytes, 64-bit words, little-endian encoding, and memory as a sequence of 8-byte slots |
| `osp_types.dfy` | `OSPTypes` | `OSPDataType`, `OSPTextureFormat` and both `sizeOf` tables |
| `type_names.dfy` | `TypeNames` | `typeForString` and `stringForType`, with the round trip and injectivity |
| `osp_args.dfy` | `CommandLine` | `removeArgs` on an array; the `init` loop as a method, proved against a step function and a declarative `Parse` |
| `osp_checksum.dfy` | `CheckSum` | the `computeCheckSum` loop, proved against the weighted sum of the words |
| `coi_objects.dfy` | `CoiObjects` | the engine objects and the handle registry, with the pure facts the verbs rely on |
| `coi_worker.dfy` | `CoiWorker` | the class `Worker`: one method per verb, over mutable fields |

Pointers are 8 bytes wide on the coprocessor. An OBJECT array is read as
8-byte little-endian handles and rewritten in place as 8-byte object
addresses. A new object's address is a parameter of the verb that allocates
it; the allocator guarantees the address is non-null and unused. The engine
factories (`createGeometry`, `createMaterial`, ...) are a `Catalogue`: for each
factory, the names it can build an object for. Each factory's result matters
only as "an object or null".

Where the code was silent, the model settles these points:

- `Handle::lookup` of the null handle or of an unbound handle gives the null
  pointer. The early return of `set_value` on an unbound target relies on this.
- `handle.assign` binds, or rebinds, the handle.
- Dereferencing a null or wrongly typed lookup is undefined behaviour. It is
  therefore a precondition of the verb, for example `IsModel` for
  `add_geometry`.
- `Assert(obj)` and `assert(light)` are enabled and fail with
  `AssertionFailed`.
- `init` writes its flags to `Device::current` (OSPCommon.cpp:84). The model
  takes that device as already created: `CommandLine.Init` is given a
  non-null `Device`. The worker's `main` calls `ospray::init`
  (coidevice_worker.cpp:700) without creating a device in the lines shown,
  so a null current device there is not modelled.

## Model

| member | source | states |
|---|---|---|
| CheckSum.ComputeCheckSum | ospray/common/OSPCommon.cpp:45-58 | the loop over whole 8-byte words returns the 64-bit sum Σ (i+13)·word_i, wrapped modulo 2^64 |
| CheckSum.CheckSumOfWords | ospray/common/OSPCommon.cpp:47-57 | an area of whole words `ws` followed by fewer than 8 bytes checksums to the weighted sum of exactly `ws` |
| CheckSum.TrailingBytesIgnored | ospray/common/OSPCommon.cpp:47 | the trailing numBytes % 8 bytes never affect the checksum |
| CommandLine.RemoveArgs | ospray/common/OSPCommon.cpp:70-75 | ac drops by howMany; entries where+howMany..ac-1 move down by howMany and every other entry, stale tail included, is untouched |
| CommandLine.RemovedShifts | ospray/common/OSPCommon.cpp:70-75 | av[0..where) unchanged, av'[k] = av[k+howMany] for where ≤ k < ac', the rest unchanged |
| CommandLine.Init | ospray/common/OSPCommon.cpp:84-111 | with a null argc/argv nothing changes; otherwise argc, argv and the device settings end as the loop function `Run` computes, and a value flag in the last slot of argv fails |
| CommandLine.HandleArg | ospray/common/OSPCommon.cpp:91-108 | one pass of the loop body does exactly what `Step` computes: the device fields written, removeArgs of 1 or 2 entries, or `++i` |
| CommandLine.RunValueFlagCrash | ospray/common/OSPCommon.cpp:101-106 | a value flag at argv[argc-1] makes atoi read the NULL terminator |
| CommandLine.RunAgreesWithParse | ospray/common/OSPCommon.cpp:89-110 | when every value flag has a live value, the loop leaves av[0..i) followed by exactly the unrecognised arguments, with the settings `Parse` computes |
| CommandLine.ParseKeepsOrder | ospray/common/OSPCommon.cpp:107-108 | the kept arguments are a subsequence of the input in their original order, and none of them is a recognised flag |
| CommandLine.ParseWithoutValueFlags | ospray/common/OSPCommon.cpp:92-108 | without value flags, exactly the unrecognised arguments remain, in order |
| CommandLine.ParseAppend | ospray/common/OSPCommon.cpp:89-110 | parsing a concatenation continues from the settings the complete prefix leaves |
| CommandLine.LastFlagWins | ospray/common/OSPCommon.cpp:92-106 | for repeated flags the last occurrence decides the setting (debug: debugMode and numThreads 1; verbose: 1; vv: 2; loglevel/numthreads: atoi of the value) |
| CommandLine.StaleValueRead | ospray/common/OSPCommon.cpp:101-103 | `prog --osp:debug --osp:loglevel`: the loop reads the stale copy the shift left behind and ends with argc 0, though the value is missing |
| CommandLine.RunCheckedMatchesRun | ospray/common/OSPCommon.cpp:101-106 | the guarded loop agrees with the loop as written wherever every value flag has its value, and fails wherever one lacks it |
| CommandLine.RunCheckedAgreesWithParse | ospray/common/OSPCommon.cpp:89-110 | the guarded loop fails exactly when a value flag lacks its value, and otherwise strips the flags exactly as `Parse` does |
| OSPTypes.SizeOf | ospray/common/OSPCommon.cpp:133-185 | defined exactly on the listed tags, positive there, and throws UnknownDataType otherwise |
| OSPTypes.SizeOfPointerWidth | ospray/common/OSPCommon.cpp:134-150 | VOID_PTR, STRING and every object kind occupy one pointer |
| OSPTypes.SizeOfNumeric | ospray/common/OSPCommon.cpp:151-180 | a packed numeric tag is components × scalar width; FLOAT3A is padded to four floats |
| OSPTypes.SizeOfTexture | ospray/common/OSPCommon.cpp:266-282 | defined exactly on the eight listed formats, and throws UnknownTextureFormat otherwise |
| OSPTypes.TexelSize | ospray/common/OSPCommon.cpp:268-279 | RGBA8/SRGBA 4, RGBA32F 16, RGB8/SRGB 3, RGB32F 12, R8 1, R32F 4: channels × channel width |
| TypeNames.TypeForString | ospray/common/OSPCommon.cpp:187-209 | not OSP_UNKNOWN iff the string is non-null and one of the 19 recognised names, and then one of the 19 element tags |
| TypeNames.StringForType | ospray/common/OSPCommon.cpp:211-264 | a name for exactly the listed tags; throws UnknownDataType otherwise |
| TypeNames.NameRoundTrip | ospray/common/OSPCommon.cpp:189-207 | stringForType(typeForString(s)) == s for every recognised name |
| TypeNames.ParsedTagRoundTrip | ospray/common/OSPCommon.cpp:189-257 | every tag typeForString can return is parsed back from its own name |
| TypeNames.UnparsedTagName | ospray/common/OSPCommon.cpp:208 | the names of all other listed tags ("long", "string", "object", "float3a", ...) parse to OSP_UNKNOWN |
| TypeNames.StringForTypeInjective | ospray/common/OSPCommon.cpp:213-263 | no two listed tags share a name |
| CoiObjects.Resolve | ospray/api/coidevice_worker.cpp:665-666 | lookup of the null handle is null, a bound non-null handle gives its binding, and a non-null lookup always comes from a binding |
| CoiObjects.AssignKeepsRegistry | ospray/api/coidevice_worker.cpp:88 | assigning a new object keeps every bound handle live, and every other handle still resolves as before |
| CoiObjects.RewrittenSlots | ospray/api/coidevice_worker.cpp:135-144 | after the rewrite each of the first nitems slots holds the object its handle named, null handles are null, and the bytes after them are unchanged |
| CoiObjects.BumpedCounts | ospray/api/coidevice_worker.cpp:139-140 | each object's refcount rises by exactly the number of slots naming it, and nothing else about any object changes |
| CoiObjects.RewriteTwice | ospray/api/coidevice_worker.cpp:184-194 | running the rewrite of new_data and then that of upload_data_done on one array (each pass meeting only bound handles) resolves the written pointers again and bumps once per pass |
| CoiObjects.BumpedAppend | ospray/api/coidevice_worker.cpp:188-194 | bumping for two arrays in turn is bumping for their concatenation |
| CoiObjects.WithSharedBits | ospray/api/coidevice_worker.cpp:146 | flags \| OSP_DATA_SHARED_BUFFER sets bit 0 and keeps every other bit |
| CoiObjects.DataBytes | ospray/api/coidevice_worker.cpp:244-245 | nitems × sizeOf(format) bytes for a listed format and non-negative count; an unlisted format throws UnknownDataType, and a negative count (a huge size_t) gives BadAlloc |
| CoiObjects.SplicedBytes | ospray/api/coidevice_worker.cpp:216 | the chunk lands at begin and every other byte is unchanged |
| CoiObjects.SplicedTwice | ospray/api/coidevice_worker.cpp:216 | uploading the same chunk twice is uploading it once |
| CoiObjects.FirstIndex | ospray/api/coidevice_worker.cpp:590-596 | the position find_if stops at: the first entry equal to the pointer, or the end iff there is none |
| CoiObjects.RemoveFirstSpec | ospray/api/coidevice_worker.cpp:613-618 | erase removes only the first matching entry, keeping the rest in order; with no match nothing changes |
| CoiObjects.RemoveFirstCounts | ospray/api/coidevice_worker.cpp:613-618 | exactly one occurrence of the pointer leaves the vector, if it had one |
| CoiObjects.AddThenRemove | ospray/api/coidevice_worker.cpp:533 | push_back and then remove of a pointer not yet in the vector gives the vector back |
| CoiObjects.Fallback | ospray/api/coidevice_worker.cpp:446-450 | a product iff the renderer's factory or the global one builds the name, from the renderer's factory whenever it builds it |
| CoiObjects.RendererFirst | ospray/api/coidevice_worker.cpp:447-448 | a renderer that builds the name wins over the global factory |
| CoiObjects.NoRendererGlobalOnly | ospray/api/coidevice_worker.cpp:449-450 | without a renderer only the global factory is asked |
| CoiObjects.Committed | ospray/api/coidevice_worker.cpp:570-580 | commit counts one commit, finalizes a Model and only a Model, and changes nothing else |
| CoiObjects.StoredValue | ospray/api/coidevice_worker.cpp:672-692 | a value exactly for the 14 handled tags; UnsupportedValueType otherwise |
| CoiObjects.StoredValueShape | ospray/api/coidevice_worker.cpp:673-689 | numeric tags store their tag and the 4·components bytes sent, STRING the string, OBJECT the object its handle names |
| CoiWorker.Worker.Install | ospray/api/coidevice_worker.cpp:88 | handle.assign of a new object: binds the handle, adds the object, keeps the registry valid |
| CoiWorker.Worker.Create | ospray/api/coidevice_worker.cpp:266-267 | handle.assign of a factory's result: the new object, or null when the factory built none |
| CoiWorker.Worker.RewriteObjectSlots | ospray/api/coidevice_worker.cpp:135-144 | the array becomes `Rewritten` of its old contents, and the objects are `Bumped` by the resolved slots |
| CoiWorker.Worker.CopyBytes | ospray/api/coidevice_worker.cpp:216 | memcpy: the destination becomes the old destination with the source spliced in at begin |
| CoiWorker.Worker.NewModel | ospray/api/coidevice_worker.cpp:73-90 | binds the handle to a new, empty model |
| CoiWorker.Worker.NewTriangleMesh | ospray/api/coidevice_worker.cpp:93-106 | binds the handle to a new triangle mesh with no material |
| CoiWorker.Worker.NewGeometry | ospray/api/coidevice_worker.cpp:254-270 | binds the handle to the geometry createGeometry builds, or to null |
| CoiWorker.Worker.NewFrameBuffer | ospray/api/coidevice_worker.cpp:273-300 | binds the handle to a new frame buffer |
| CoiWorker.Worker.NewCamera | ospray/api/coidevice_worker.cpp:319-335 | binds the handle to the camera createCamera builds, or to null |
| CoiWorker.Worker.NewVolume | ospray/api/coidevice_worker.cpp:338-356 | binds the handle to the volume createVolume builds, or to null |
| CoiWorker.Worker.NewVolumeFromFile | ospray/api/coidevice_worker.cpp:359-377 | binds the handle to the volume createVolume(filename, type) builds, or to null |
| CoiWorker.Worker.NewTransferFunction | ospray/api/coidevice_worker.cpp:380-397 | binds the handle to the transfer function the factory builds, or to null |
| CoiWorker.Worker.NewRenderer | ospray/api/coidevice_worker.cpp:400-416 | binds the handle to the renderer createRenderer builds, or to null |
| CoiWorker.Worker.NewTexture2D | ospray/api/coidevice_worker.cpp:496-517 | retains the texel buffer when AddRef succeeds, and binds the handle to a new texture either way |
| CoiWorker.Worker.NewData | ospray/api/coidevice_worker.cpp:110-155 | a failed AddRef throws with nothing changed; otherwise the buffer is retained, then STRING throws with no Data bound, OBJECT slots are rewritten in place, and the handle is bound to a Data over the buffer with the shared-buffer flag set |
| CoiWorker.Worker.UploadDataDone | ospray/api/coidevice_worker.cpp:158-199 | sizeOf is checked first (UnknownDataType), then STRING throws; an OBJECT Data's storage is rewritten in place; nothing else changes |
| CoiWorker.Worker.UploadDataChunk | ospray/api/coidevice_worker.cpp:202-219 | bytes [begin, begin+size) of the Data become the first size bytes of the pinned buffer; every other byte is unchanged |
| CoiWorker.Worker.CreateNewEmptyData | ospray/api/coidevice_worker.cpp:222-251 | STRING throws first; then a fresh array of exactly nitems·sizeOf(format) zero bytes is bound in a Data with the shared-buffer flag set, or the size computation throws and nothing is bound |
| CoiWorker.Worker.Bzero | ospray/api/coidevice_worker.cpp:246 | every byte of the new array is zero |
| CoiWorker.Worker.PinUploadBuffer | ospray/api/coidevice_worker.cpp:419-430 | the upload buffer becomes the last pinned buffer, and nothing else changes |
| CoiWorker.Worker.NewMaterial | ospray/api/coidevice_worker.cpp:433-461 | returns true and binds the handle iff the renderer-then-global fallback builds a material, recording which factory built it; otherwise returns false and nothing changes |
| CoiWorker.Worker.NewLight | ospray/api/coidevice_worker.cpp:464-493 | the same fallback for lights; when neither factory builds one, the assert fails and nothing is bound |
| CoiWorker.Worker.AddGeometry | ospray/api/coidevice_worker.cpp:520-535 | appends the geometry's lookup (null included) to the model's vector; no other object changes |
| CoiWorker.Worker.SetMaterial | ospray/api/coidevice_worker.cpp:538-553 | the geometry records the material's lookup; no other object changes |
| CoiWorker.Worker.Commit | ospray/api/coidevice_worker.cpp:556-587 | an unbound handle fails Assert(obj); otherwise only that object is committed, and finalized iff it is a Model |
| CoiWorker.Worker.FindGeometry | ospray/api/coidevice_worker.cpp:613-615 | the find_if loop stops at `FirstIndex` |
| CoiWorker.Worker.RemoveGeometry | ospray/api/coidevice_worker.cpp:598-621 | the model's vector loses its first entry equal to the geometry, if there is one; no other object changes |
| CoiWorker.Worker.SetValue | ospray/api/coidevice_worker.cpp:654-694 | an unbound target returns with nothing changed; otherwise exactly one value is stored under the name (as `StoredValue` gives it), or an unhandled tag throws with nothing changed |

## Left out

- The COI transport is an argument of the verbs. The bulk buffers arrive as arrays, and the result of `COIBufferAddRef` is a boolean parameter. `COIProcessProxyFlush` and the pipeline and process calls of `main` are not modelled.
- All logging (`cout`, `printf`) is output only and is left out.
- Rendering verbs are left out: `ospray_coi_framebuffer_clear`, `ospray_coi_render_frame` and `ospray_coi_render_frame_sync` (lines 303-316 and 624-651). They are engine and pixel work.
- `ospray_coi_initialize` (lines 42-70) is left out. It installs the load balancer, whose tile rule is in `ospray/render/loadbalancer.h`, and that file is not part of this model.
- `main` of the worker (lines 698-721) is left out.
- The CPU-feature check at the start of `init` (OSPCommon.cpp:79-82) is left out, as are `malloc64`/`free64`, `doAssertion`, `error_handler`, `WarnOnce` and `logLevel()`.
- The headers `handle.h`, `DataStream`, `ospray/common/Data.h` and `Geometry::setMaterial` are not part of this model:
  - the registry is a map;
  - the argument stream is the verb's parameters;
  - a Data object is its count, format, flags and the array it uses;
  - setMaterial records the pointer.
- Reference counting by `embree::Ref` and by `ManagedObject::set` happens inside those headers and is left out. Only the explicit `refInc` of the OBJECT-array rewrite is modelled.
- CoiWorker.Worker.SetValue: FLOAT and vector payloads are kept as the bytes sent, never as floating-point values.
- CoiWorker.Worker.NewFrameBuffer: the size, color format, depth and accumulation channels, and the pixel array are not recorded in the object.
- CoiWorker.Worker.NewTexture2D: width, height, type and flags are not recorded. `Texture2D::createTexture` is taken to always build a texture.
- CoiWorker.Worker.NewVolumeFromFile: the file is not read. The factory's answer for the (filename, type) pair stands for it.
- CoiObjects.Committed: `commit()` and `Model::finalize()` are engine code. Their effect is recorded as a commit count and a finalize count.
- CheckSum.ComputeCheckSum: `sum += (i+13) * *mem` can overflow the signed `long` accumulator, which is undefined behaviour in C++. The model takes two's-complement wrap-around, so the result is the sum modulo 2^64.
- CommandLine.Init: `atoi` is C's, read on unbounded integers. The undefined behaviour of an out-of-range value is not modelled.
- CommandLine.Init: `atoi(NULL)`, reached by a value flag in the last slot of argv, is modelled as the failure MissingFlagValue.
- TypeNames.TypeForString: the code recognises 19 names, not 20. The model follows the code.
- CoiWorker.Worker.UploadDataDone: `size` is computed but never used afterwards. Only its throw for an unlisted format is modelled.
- CoiWorker.Worker.UploadDataChunk: `memcpy` from an upload buffer that overlaps the destination region is undefined, so the model requires the two regions to be disjoint.

## Findings

| source | as written | input that shows it | evidently intended | confidence | as-written member | corrected member |
|---|---|---|---|---|---|---|
| ospray/common/OSPCommon.cpp:101-106 | a value flag reads av[i+1] whether or not it is still a live argument, then removes two entries | `prog --osp:debug --osp:loglevel`: after the debug flag is removed, av[2] still holds a stale "--osp:loglevel"; it is read as the value, and removing two entries leaves argc 0, so even the program name is dropped | a value flag needs a live argument after it (i + 1 < ac), otherwise the command line is rejected | medium, not executed | CommandLine.StaleValueRead | CommandLine.RunCheckedAgreesWithParse |
