# A verified model of the EAE6320 mesh pipeline

This project models the path a mesh takes through the EAE6320 engine and
proves properties of that model in Dafny. The path has four parts:

- the offline mesh builder, `cMeshBuilder`, runs a Lua asset file and writes
  the binary mesh record;
- the engine's `Mesh` loads that record into a heap buffer and hands it to the
  graphics driver, either as an OpenGL vertex array or as Direct3D 9 vertex
  and index buffers with a vertex declaration;
- the `Effect` compiles and binds the shader pair;
- a `Renderable` owns one mesh and one effect, and a `GameObject` owns one
  renderable.

Both backends are modelled. Each class carries a `backend` constant, `GL` or
`D3D`, in place of the `EAE6320_PLATFORM_*` conditional compilation.

## Modules

- `Bytes`: bytes, `uint32_t`, the C conversion to `uint32_t`, and the
  little-endian memory form.
- `VertexFormat`: the 12-byte `sVertex`. The builder and the engine declare it
  separately. Both store the colour channels r, g, b, a under OpenGL and
  b, g, r, a under Direct3D. The module also holds the Direct3D vertex
  declaration and the OpenGL attribute pointers.
- `MeshRecord`: the binary record. It is two `uint32_t` counts, then the
  vertex array, then the index array. `Serialize` is what the builder writes.
  `Parse` is the loader with the missing length check added.
- `Winding`: the Direct3D index winding the builder applies, as written and
  corrected.
- `LuaAsset`: the part of a Lua state the builder touches. This is a value
  stack and tables, with `LoadTableWithKey`, `LoadTableWithIndex`,
  `LoadValueWithIndex` and `GetVertexData`.
- `MeshBuilder`: the class `MeshBuilder` with `ProcessMeshData` and `Build`,
  and its two fill loops over arrays.
- `Driver`: what the engine sees of the driver and of the C library.
  - A `Device` object tracks the driver objects that exist, the commands
    issued (in order), the heap blocks from `malloc`, the freed addresses and
    the open files.
  - It also counts operations made through a pointer to a deleted object.
  - Every fallible call is a `Step`. The `fails` parameter is the set of steps
    that fail.
  - A ghost `attempted` sequence records which steps ran, and
    `StopsAtFirstFailure` says that they ran in source order up to the first
    failure.
- `MeshResource`: the class `Mesh` (`LoadMesh`, `Initialize`, `Draw`,
  `ShutDown`, `CreateVertexArray`, `CreateVertexBuffer`, `CreateIndexBuffer`)
  and the blocks those methods are made of.
- `EffectResource`: the class `Effect` (`Initialize`, `Bind`,
  `SetDrawCallUniforms`, `ShutDown`), the OpenGL program build and the
  Direct3D shader loads.
- `Renderables`, `GameObjects`: the two owning classes.

## Behaviour of the source

The model keeps the following behaviour of the source:

- **`Renderable::Initialize` passes `LoadMesh`'s result to `Mesh::Initialize`
  without checking it for NULL.** A mesh whose file did not load still uploads
  its views, which are empty. `Renderables.Uploaded` states what is uploaded
  in each case, and `Renderables.UploadedDecodes` that it decodes to what the
  loader reads from the file.
- **`Renderable::ShutDown` deletes the mesh and the effect but keeps the
  pointers.** When `Renderable::Initialize` fails it has already shut itself
  down, and `GameObject::Initialize` then shuts it down again. That second
  pass does four operations on deleted objects: `ShutDown` and `delete` on
  each of the two. `GameObject::ShutDown` behaves the same way towards the
  renderable itself. These operations are counted in
  `Device.danglingUses`.
- **The OpenGL `s_vertexArrayId` is never initialised.** The mesh constructor
  leaves it unknown.
- **The Direct3D constant table of the vertex shader is never released, and
  `Effect.h` gives its pointer no initial value.** Only a vertex compile that
  gets as far as handing a table back sets the pointer, to a table or to NULL.
  After a failed compile the pointer keeps whatever it held: on a new effect,
  an undefined value. `SetDrawCallUniforms` calls through the pointer
  unchecked. A call through a pointer that is NULL or was never set is
  counted as a use of an invalid pointer.
- **`LoadMesh` does not check the result of `malloc`.** When it is NULL,
  `fread` writes through it. That is counted as a use of an invalid pointer.
- **`Build` deletes both arrays at `OnExit` on every path.** This includes
  the paths where nothing set the pointers. `cMeshBuilder` has no
  constructor, so those pointers are undefined on a new builder. A second
  `Build` deletes arrays the first one already deleted. Arrays from `new[]`
  are deleted with the scalar `delete`. `MeshBuilder.MeshBuilder.Build`
  records what each pointer held when it was deleted.
- **`Build` asserts that the Lua stack is empty at `OnExit`.** An asset whose
  "vertices" table holds a non-table entry leaves the asset's table on the
  stack (the vertices table is popped in its place).
  `MeshBuilder.MeshBuilder.Build` states when the stack is empty.
- **`Effect::Initialize()` takes no arguments, and the shader files are fixed
  paths.** The model makes the files' contents (`files`) and the location the
  driver gives `g_position_offset` (`position`) parameters.

## Model

| member | source | states |
|---|---|---|
| Bytes.ToU32 | Code/Tools/MeshBuilder/cMeshBuilder.cpp:212 | the `(uint32_t)` conversion keeps every value in range and otherwise agrees with its argument modulo 2^32 |
| Bytes.U32RoundTrip | Code/Tools/MeshBuilder/cMeshBuilder.cpp:122-123 | a count written as four bytes reads back as the same count |
| Bytes.LeRoundTrip | Code/Engine/Graphics/Mesh.cpp:47-49 | any four header bytes are the memory form of the count they are read as |
| Bytes.U32sRoundTrip | Code/Tools/MeshBuilder/cMeshBuilder.cpp:125 | an index array written with `fwrite` reinterprets as the same array |
| Bytes.LeToU32sAt | Code/Engine/Graphics/Mesh.cpp:53 | element k of a reinterpreted index array is read from bytes 4k to 4k+3 |
| VertexFormat.BackendOrders | Code/Tools/MeshBuilder/cMeshBuilder.h:19-27 | each backend's vertex struct stores each of the four channels exactly once |
| VertexFormat.VertexRoundTrip | Code/Engine/Graphics/Mesh.h:19-33 | whatever the channel order, a vertex written and read back with that order is unchanged |
| VertexFormat.BuilderEngineAgree | Code/Tools/MeshBuilder/cMeshBuilder.h:19-27 | a vertex the builder writes for a backend is read back unchanged by the engine built for the same backend |
| VertexFormat.CrossBackendSwapsRedAndBlue | Code/Engine/Graphics/Mesh.h:28-32 | a Direct3D-built vertex read with the OpenGL layout has red and blue exchanged and nothing else changed |
| VertexFormat.ColorBytes | Code/Engine/Graphics/Mesh.d3d.cpp:203-206 | under Direct3D the colour bytes are the D3DCOLOR value 0xAARRGGBB; under OpenGL they are r, g, b, a in component order |
| VertexFormat.VerticesRoundTrip | Code/Tools/MeshBuilder/cMeshBuilder.cpp:124 | a vertex array written back to back reads back as the same array |
| VertexFormat.AttributesCoverVertex | Code/Engine/Graphics/Mesh.d3d.cpp:194-210 | both the Direct3D declaration and the OpenGL pointers cover exactly the position bytes and exactly the colour bytes of a vertex |
| VertexFormat.GlAttributes | Code/Engine/Graphics/Mesh.gl.cpp:151-235 | two attributes, with the colour pointer 8 bytes (two floats) after the position pointer |
| MeshRecord.SerializeLayout | Code/Tools/MeshBuilder/cMeshBuilder.cpp:116-128 | the written file is the vertex count, the index count, the vertex bytes and the index bytes, with nothing else |
| MeshRecord.TruncatedRecordOverrunsViews | Code/Engine/Graphics/Mesh.cpp:46-54 | an 8-byte file whose header says one vertex gets a vertex view that ends past the buffer |
| MeshRecord.Parse | Code/Engine/Graphics/Mesh.cpp:24-60 | the loader accepts a buffer exactly when it holds the header and both views lie inside it; the counts are the header's |
| MeshRecord.SegmentsParse | Code/Engine/Graphics/Mesh.cpp:51-53 | what a record loads as is its vertex segment and its index segment, decoded |
| MeshRecord.RoundTrip | Code/Tools/MeshBuilder/cMeshBuilder.cpp:116-128 | the engine built for a backend loads a record written for that backend as the builder's mesh |
| MeshRecord.ParseLaidOut | Code/Engine/Graphics/Mesh.cpp:24-60 | any buffer laid out as the builder lays out a mesh loads as that mesh |
| MeshRecord.ParseIsExact | Code/Tools/MeshBuilder/cMeshBuilder.cpp:116-128 | an exactly sized buffer that loads as a mesh is the file the builder writes for that mesh |
| MeshRecord.ParsedSegments | Code/Engine/Graphics/Mesh.cpp:51-53 | the segments of an exactly sized loaded buffer are the encodings of the loaded vertices and indices |
| MeshRecord.HeaderBytes | Code/Engine/Graphics/Mesh.cpp:47-49 | the header fields are the memory forms of the counts read from them |
| MeshRecord.EncodeDecoded | Code/Engine/Graphics/Mesh.cpp:51-53 | re-encoding the decoded segments gives back the segment bytes |
| MeshRecord.DecodeEncodeVertices | Code/Engine/Graphics/Mesh.h:19-33 | any whole number of vertex-sized byte groups is the encoding of the vertices it reads as |
| MeshRecord.DecodeEncodeU32s | Code/Engine/Graphics/Mesh.cpp:53 | any whole number of 4-byte groups is the encoding of the indices it reads as |
| MeshRecord.UnitSquare | Code/Engine/Graphics/Mesh.d3d.cpp:69-71 | the square the game draws, four vertices and six indices, is an 80-byte record that loads back unchanged |
| Driver.StopsAtFirstFailureThen | Code/Engine/Graphics/Mesh.d3d.cpp:20-40 | running one block of steps to the end and then another is running the two blocks as one, and the whole succeeds when the second does |
| Driver.StopsEarly | Code/Engine/Graphics/Mesh.d3d.cpp:25-34 | when a block stops at a failure, the blocks after it never run and the whole fails |
| Driver.StopsAtFirstFailureUnique | Code/Engine/Graphics/Effect.gl.cpp:53-160 | the steps that run are determined by the order and the failing steps |
| Driver.Device.Attach | Code/Engine/Graphics/Mesh.d3d.cpp:12-19 | setting and releasing the Direct3D device |
| Driver.Device.Create | Code/Engine/Graphics/Mesh.gl.cpp:76-104 | a new driver object has a non-zero name never used before and joins the live objects |
| Driver.Device.Destroy | Code/Engine/Graphics/Mesh.gl.cpp:51-69 | a deleted or released object leaves the live objects |
| Driver.Device.Allocate | Code/Engine/Graphics/Mesh.cpp:37 | `malloc` returns a non-null address not in use, whose block holds the data |
| Driver.Device.Free | Code/Engine/Graphics/Mesh.gl.cpp:21 | `free` drops the block; a null address is ignored |
| Driver.Device.OpenFile | Code/Engine/Graphics/Mesh.cpp:30 | an opened file is a new handle among the open files |
| Driver.Device.CloseFile | Code/Engine/Graphics/Mesh.cpp:56 | a closed file leaves the open files |
| Driver.Device.CommitVertices | Code/Engine/Graphics/Mesh.d3d.cpp:281-289 | unlocking a vertex buffer makes its contents what was written into it |
| Driver.Device.CommitIndices | Code/Engine/Graphics/Mesh.d3d.cpp:158-166 | unlocking an index buffer makes its contents what was written into it |
| LuaAsset.LuaState.PushAll | Code/Tools/MeshBuilder/cMeshBuilder.cpp:59 | `lua_pcall` leaves the chunk's return values on the stack |
| LuaAsset.LuaState.Pop | Code/Tools/MeshBuilder/cMeshBuilder.cpp:112 | `lua_pop(n)` removes the top n values |
| LuaAsset.LuaState.LoadTableWithKey | Code/Tools/MeshBuilder/cMeshBuilder.cpp:260-275 | succeeds exactly when the field is a table, leaving it pushed; otherwise the stack is as it was |
| LuaAsset.LuaState.LoadTableWithIndex | Code/Tools/MeshBuilder/cMeshBuilder.cpp:276-291 | the same for the entry at a 1-based index |
| LuaAsset.LuaState.LoadValueWithIndex | Code/Tools/MeshBuilder/cMeshBuilder.cpp:292-297 | always succeeds and pushes the entry, nil included |
| LuaAsset.LuaState.GetVertexData | Code/Tools/MeshBuilder/cMeshBuilder.cpp:222-258 | the vertex has the table's position and its colour scaled to bytes, read from numbers and from strings that are numerals, and 0 from anything else; the stack is as it was |
| Winding.TrailingPairOverruns | Code/Tools/MeshBuilder/cMeshBuilder.cpp:201-212 | as written, when two indices follow the last whole triangle the last one is stored one past the end of the array |
| Winding.AsWrittenInBounds | Code/Tools/MeshBuilder/cMeshBuilder.cpp:201-212 | for every other length, each index is stored inside the array |
| Winding.Slot | Code/Tools/MeshBuilder/cMeshBuilder.cpp:201-212 | the corrected slot always lies inside the array |
| Winding.SlotAgreesWithSource | Code/Tools/MeshBuilder/cMeshBuilder.cpp:201-212 | wherever the source stays in bounds, the corrected slot is the source's |
| Winding.SlotInvolution | Code/Tools/MeshBuilder/cMeshBuilder.cpp:201-212 | moving an index twice puts it back |
| Winding.SlotInjective | Code/Tools/MeshBuilder/cMeshBuilder.cpp:201-212 | two indices never share a slot |
| Winding.RewindTriangles | Code/Tools/MeshBuilder/cMeshBuilder.cpp:194-215 | OpenGL keeps the indices; Direct3D keeps the first index of every whole triangle and exchanges its second and third |
| Winding.RewindInvolution | Code/Tools/MeshBuilder/cMeshBuilder.cpp:194-215 | rewinding twice gives back the asset's order |
| Winding.RewindPermutes | Code/Tools/MeshBuilder/cMeshBuilder.cpp:194-215 | the rewound array holds the asset's indices, each as often |
| MeshBuilder.Count | Code/Tools/MeshBuilder/cMeshBuilder.cpp:158 | `#t` as a count is the length when it fits 32 bits and never exceeds it |
| MeshBuilder.FillVertices | Code/Tools/MeshBuilder/cMeshBuilder.cpp:164-174 | succeeds exactly when every entry is a table; each vertex up to the first bad entry is read from its entry; the stack is restored |
| MeshBuilder.FillIndices | Code/Tools/MeshBuilder/cMeshBuilder.cpp:194-215 | the index array is the asset's indices (numbers, or strings that are numerals) converted to `uint32_t` and rewound for the backend; the stack is restored (corrected, see Findings) |
| MeshBuilder.MeshBuilder.ProcessMeshData | Code/Tools/MeshBuilder/cMeshBuilder.cpp:149-221 | succeeds exactly when the asset is well formed; states the arrays and counts it sets and the stack it leaves on every path (corrected, see Findings) |
| MeshBuilder.MeshBuilder.ProcessIndices | Code/Tools/MeshBuilder/cMeshBuilder.cpp:180-220 | fails exactly when "indices" is not a table; otherwise the new index array is the asset's indices rewound for the backend; the stack is as it was either way (corrected, see Findings) |
| MeshBuilder.MeshBuilder.RunAsset | Code/Tools/MeshBuilder/cMeshBuilder.cpp:24-128 | `Build` up to `OnExit`: succeeds exactly when the asset returned one well-formed table; the file written is the record of the built arrays and loads back as them; allocates the vertex array exactly when "vertices" is a table, and the index array exactly on success |
| MeshBuilder.MeshBuilder.DeleteArrays | Code/Tools/MeshBuilder/cMeshBuilder.cpp:141-144 | the two deletes of `OnExit` record what the vertex pointer and then the index pointer held; an undefined pointer stays undefined, anything else is released |
| MeshBuilder.MeshBuilder.Build | Code/Tools/MeshBuilder/cMeshBuilder.cpp:24-147 | succeeds exactly when the asset returned one well-formed table; the file written is the record of the built arrays and loads back as them; the stack is empty at exit except for the asset's table when a vertex entry is not a table (the vertices table is popped in its place); on every path both pointers are deleted, and what each held (never set, an array, an array already deleted) is recorded (corrected, see Findings) |
| MeshResource.VertexProcessingUsage | Code/Engine/Graphics/Mesh.d3d.cpp:294-309 | software-processing usage for a device doing only software vertex processing; none for a mixed device, a hardware device, or a device claiming no kind |
| MeshResource.BufferUsageFlags | Code/Engine/Graphics/Mesh.d3d.cpp:104-115 | buffers are always write-only and carry no other flag but software processing, which a mixed-mode or hardware device never gets |
| MeshResource.FixedBuffersOverrun | Code/Engine/Graphics/Mesh.d3d.cpp:229-232 | a record the loader accepts (five vertices, seven indices) holds more data than the fixed-size Direct3D buffers |
| MeshResource.LoadedViews | Code/Engine/Graphics/Mesh.cpp:46-54 | on a buffer holding a whole record, the views lie inside it and show its vertex and index segments |
| MeshResource.CopyVertices | Code/Engine/Graphics/Mesh.d3d.cpp:278-279 | the locked vertex buffer ends up holding the mesh's vertex bytes |
| MeshResource.CopyIndices | Code/Engine/Graphics/Mesh.d3d.cpp:155-156 | the locked index buffer ends up holding the mesh's indices |
| MeshResource.Mesh.constructor | Code/Engine/Graphics/Mesh.cpp:14-21 | no data, zero counts, no Direct3D objects |
| MeshResource.Mesh.LoadMesh | Code/Engine/Graphics/Mesh.cpp:24-60 | a block is returned exactly when the file opens, its buffer is allocated, it reads and it loads; it holds the file; the counts and views are the record's and show what `Parse` reads; a failed `malloc` is read through, which counts as a use of an invalid pointer; a short read frees the block but leaves the file open (corrected, see Findings) |
| MeshResource.Mesh.PointInto | Code/Engine/Graphics/Mesh.cpp:46-54 | the header reads and pointer arithmetic give views showing what `Parse` reads from the block |
| MeshResource.Mesh.Initialize | Code/Engine/Graphics/Mesh.gl.cpp:14-25 | the steps run in order up to the first failure; success exactly when none fails; the buffer is freed on every path; a failure leaves no object held, and every object it leaves behind that was not there before is a buffer; with Direct3D, or when OpenGL's unbind succeeds, a failure leaves no new object at all (a failed unbind at `OnExit` leaks the two temporary buffers); success uploads the views' bytes |
| MeshResource.Mesh.CreateBuffers | Code/Engine/Graphics/Mesh.d3d.cpp:20-40 | the index buffer is made only after the vertex buffer; every new object is one the mesh holds; both hold the views' data on success |
| MeshResource.Mesh.Draw | Code/Engine/Graphics/Mesh.gl.cpp:26-50 | draws two triangles (six indices; under Direct3D, four vertices) whatever the counts |
| MeshResource.Mesh.ShutDown | Code/Engine/Graphics/Mesh.d3d.cpp:78-101 | releases every object the mesh holds and forgets it, so a second call does nothing; under Direct3D only while a device is set, unsetting the declaration first |
| MeshResource.Mesh.CreateVertexArrayObject | Code/Engine/Graphics/Mesh.gl.cpp:76-104 | a new vertex array id exactly when generation works, and it is bound on success |
| MeshResource.Mesh.CreateVertexArray | Code/Engine/Graphics/Mesh.gl.cpp:70-345 | success exactly when upload and cleanup succeed; the vertex array stays alive even on failure; every new object is a buffer or the vertex array; a successful run issues the upload commands with the views' bytes |
| MeshResource.Mesh.Upload | Code/Engine/Graphics/Mesh.gl.cpp:76-282 | the blocks before `OnExit` run in order until one fails; new objects are the vertex array and the two buffers |
| MeshResource.Mesh.UploadVertices | Code/Engine/Graphics/Mesh.gl.cpp:76-150 | a vertex array, then a vertex buffer filled with the vertex bytes |
| MeshResource.Mesh.CreateVertexBuffer | Code/Engine/Graphics/Mesh.d3d.cpp:171-293 | usage, declaration, buffer, lock, fill, unlock in order; each object made stays set on failure; on success the buffer holds the vertex bytes (corrected, see Findings) |
| MeshResource.Mesh.CreateIndexBuffer | Code/Engine/Graphics/Mesh.d3d.cpp:102-170 | usage, buffer, lock, fill, unlock in order; on success the buffer holds the indices (corrected, see Findings) |
| MeshResource.DeleteTemporaries | Code/Engine/Graphics/Mesh.gl.cpp:284-342 | unbinds the vertex array and, only if that worked, deletes the buffer ids that are not 0 |
| MeshResource.CreateBufferObject | Code/Engine/Graphics/Mesh.gl.cpp:106-150 | a buffer id exists exactly when generation worked; on success it is bound and filled with the data |
| MeshResource.UploadIndices | Code/Engine/Graphics/Mesh.gl.cpp:151-282 | describes the vertex format, then fills an index buffer with the index bytes |
| MeshResource.DescribeVertexFormat | Code/Engine/Graphics/Mesh.gl.cpp:151-235 | position and colour pointers, each enabled, at the offsets of `sVertex` |
| MeshResource.CreateDeclaration | Code/Engine/Graphics/Mesh.d3d.cpp:186-226 | a declaration with the position and colour elements exists exactly when creation worked, and is set on success |
| MeshResource.FillVertexBuffer | Code/Engine/Graphics/Mesh.d3d.cpp:228-290 | a vertex buffer sized for the vertices; the contents change exactly when it was created and locked (corrected, see Findings) |
| MeshResource.FillIndexBuffer | Code/Engine/Graphics/Mesh.d3d.cpp:117-167 | an index buffer sized for the indices; the contents change exactly when it was created and locked (corrected, see Findings) |
| EffectResource.LoadAndAllocateShaderProgram | Code/Engine/Graphics/Effect.gl.cpp:161-274 | reads the file into a new block one byte longer and NUL-terminated; an earlier error leaves nothing allocated; the file is closed whenever it was opened |
| EffectResource.ReadOpenFile | Code/Engine/Graphics/Effect.gl.cpp:192-248 | size, allocation and read in order; a block whose read fails is freed |
| EffectResource.NewShader | Code/Engine/Graphics/Effect.gl.cpp:307-348 | a shader id exists exactly when creation worked and gave a non-zero id; on success it holds the source behind the two prefix strings |
| EffectResource.CompileSource | Code/Engine/Graphics/Effect.gl.cpp:350-430 | compile, then the info log length, the log and the status are checked in order |
| EffectResource.CompileAndAttach | Code/Engine/Graphics/Effect.gl.cpp:307-444 | make, compile and attach in order; on success the program receives the shader |
| EffectResource.LoadShader | Code/Engine/Graphics/Effect.gl.cpp:276-472 | the whole shader load: no shader id, heap block or open file outlives it; success issues the source, compile and attach commands |
| EffectResource.CompileThenRelease | Code/Engine/Graphics/Effect.gl.cpp:307-471 | after the source is read, the shader id is deleted and the source block freed on every path |
| EffectResource.Link | Code/Engine/Graphics/Effect.gl.cpp:82-157 | link, then the info log length, the log and the status are checked in order |
| EffectResource.BuildProgram | Code/Engine/Graphics/Effect.gl.cpp:73-157 | vertex shader, fragment shader and link in order; nothing else stays alive |
| EffectResource.Effect.constructor | Code/Engine/Graphics/Effect.h:21-29 | the field defaults: no program, position offset -1, no shaders; the constant table pointer has not been set |
| EffectResource.Effect.Initialize | Code/Engine/Graphics/Effect.gl.cpp:14-23 | success exactly when no step fails; a failure leaves no shader object held; a missing uniform is not an error; on Direct3D success both shaders are set; on success the commands and the position handle are stated |
| EffectResource.Effect.LoadD3DShaders | Code/Engine/Graphics/Effect.d3d.cpp:24-38 | the vertex shader, then the fragment shader only if the first loaded; success sets both shaders |
| EffectResource.Effect.LoadD3DShader | Code/Engine/Graphics/Effect.d3d.cpp:131-193 | compile, then create; a failed compile creates nothing and leaves the constant table pointer as it was; the constant table is read only on the vertex stage |
| EffectResource.Effect.ReadConstantTable | Code/Engine/Graphics/Effect.d3d.cpp:148-159 | the table pointer is set: NULL when no table is handed back; the position handle is looked up only when it is handed back |
| EffectResource.Effect.CreateD3DShader | Code/Engine/Graphics/Effect.d3d.cpp:180-192 | the shader exists exactly when creation worked; the compiled code is released either way |
| EffectResource.Effect.CreateProgram | Code/Engine/Graphics/Effect.gl.cpp:53-160 | a program id exists exactly when creation worked and gave a non-zero id, and stays set on a later failure |
| EffectResource.Effect.Bind | Code/Engine/Graphics/Effect.gl.cpp:24-32 | makes the effect's shaders current |
| EffectResource.Effect.SetDrawCallUniforms | Code/Engine/Graphics/Effect.d3d.cpp:51-54 | sends two floats to the position offset; under Direct3D a call through a constant table that is NULL or was never set is a use of an invalid pointer |
| EffectResource.Effect.ShutDown | Code/Engine/Graphics/Effect.gl.cpp:33-48 | releases every shader object held and forgets it, so a second call does nothing |
| EffectResource.CompileD3DShader | Code/Engine/Graphics/Effect.d3d.cpp:133-179 | compiled code exists exactly when compilation worked |
| Renderables.UploadedDecodes | Code/Engine/Graphics/Renderable.cpp:12-13 | the file loads exactly when it opens, its buffer is allocated, it reads and the loader accepts it; what the views then show decodes to the mesh the loader reads |
| Renderables.Renderable.constructor | Code/Engine/Graphics/Renderable.cpp:3-7 | a new mesh and a new effect, neither loaded |
| Renderables.Renderable.Initialize | Code/Engine/Graphics/Renderable.cpp:9-24 | success exactly when the mesh upload and then the effect succeed; on failure both are shut down and deleted; the file's block is gone on every path; on success the driver holds the file's segments, and with Direct3D both shaders are set; a read through a NULL `malloc` result is counted |
| Renderables.Renderable.InitializeMesh | Code/Engine/Graphics/Renderable.cpp:12-17 | the mesh half: a failed mesh initialisation shuts the renderable down |
| Renderables.Renderable.UploadMesh | Code/Engine/Graphics/Renderable.cpp:12-13 | `Mesh::Initialize` on `LoadMesh`'s result, NULL included, uploads the file's segments and frees the block |
| Renderables.Renderable.LoadFile | Code/Engine/Graphics/Renderable.cpp:12 | after `LoadMesh` the views show the file's segments or nothing |
| Renderables.Renderable.InitializeEffect | Code/Engine/Graphics/Renderable.cpp:18-22 | the effect half: a failed effect initialisation shuts the renderable down; success leaves the mesh as it was and, with Direct3D, sets both shaders |
| Renderables.Renderable.StartEffect | Code/Engine/Graphics/Renderable.cpp:18 | `Effect::Initialize` leaves the mesh's data and the heap as they were; with Direct3D its success sets both shaders |
| Renderables.Renderable.Draw | Code/Engine/Graphics/Renderable.cpp:40-48 | binds the effect, sends the offset, then draws the mesh; under Direct3D a call through an invalid constant table is counted, and so are the calls on an effect or mesh a failed `Initialize` deleted |
| Renderables.Renderable.SetPositionOffset | Code/Engine/Graphics/Renderable.cpp:51-54 | the offset becomes the given vector |
| Renderables.Renderable.ShutDown | Code/Engine/Graphics/Renderable.cpp:26-38 | shuts down and deletes the effect and then the mesh; doing so again counts four uses of deleted objects |
| Renderables.Renderable.ShutDownEffect | Code/Engine/Graphics/Renderable.cpp:28-32 | the effect's objects are released and the effect is deleted |
| Renderables.Renderable.ShutDownMesh | Code/Engine/Graphics/Renderable.cpp:33-37 | the mesh's objects are released and the mesh is deleted |
| GameObjects.GameObject.constructor | Code/Engine/Core/GameObject.cpp:3-8 | a new renderable and the position (0, 0) |
| GameObjects.GameObject.Initialize | Code/Engine/Core/GameObject.cpp:10-18 | success exactly when the renderable initialises; a failure deletes the renderable after four uses of its deleted mesh and effect; a read through a NULL `malloc` result is counted |
| GameObjects.GameObject.Update | Code/Engine/Core/GameObject.cpp:20-23 | the renderable's offset becomes the position |
| GameObjects.GameObject.ShutDown | Code/Engine/Core/GameObject.cpp:25-32 | shuts down and deletes the renderable; a repeat counts the uses of deleted objects |

## Left out

- **File and Lua I/O.** The mesh file, the shader files, the Lua asset and the target file of the builder are parameters: `file`, `files`, `Chunk`, `targetOpens`. File names and paths are not modelled.
- **Fallible calls.** Whether each driver, Windows, C library or Lua call succeeds is the `fails` parameter. Error codes are not modelled.
- **The Lua virtual machine.** A Lua value is a nil, a boolean, a number, a string or a table. A number carries its integer, float and colour-byte conversions as given, and so does a string that is a numeral; whether a string is a numeral, and `(uint8_t)(255 * x)`, are not computed. A table's sequence part runs to the border `#t` that Lua reports, so its last entry is never nil; which border Lua picks for a table with holes is not modelled.
- **Floating point.** Floats are kept as their 32-bit patterns. No float arithmetic is modelled.
- **Messages.** The text of error messages, `UserOutput::Print` and the contents of shader and program info logs are not modelled.
- **`sLogInfo` allocation.** Its `malloc` and `free`, and what happens when that `malloc` fails, are not modelled.
- **Errors that are only printed.** A failed `glDeleteShader`, `glDeleteProgram` or `glDeleteVertexArrays` is reported and ignored by the source. The model lets those deletes succeed.
- **Debug assertions.** The `assert` checks after the draw and bind calls are not modelled. Those calls are taken to succeed.
- **Graphics.cpp** is not part of this model. The creation of the OpenGL context and the Direct3D device, and the frame loop, are not modelled; the device's creation flags are a parameter.
- **Math/cVector.h** is not part of this model. A new renderable's offset is left unknown.
- **Integer widths in the engine.** `size_t` overflow in the byte counts of `LoadMesh` is not modelled; counts are unbounded there. The builder's `(uint32_t)` value conversions are modelled; its `int`-typed Lua indices and slots are not (see `MeshBuilder.FillVertices` below).
- **Copy loops.** `MeshResource.CopyVertices` and `MeshResource.CopyIndices` run on fresh arrays. Writing into memory locked from a driver buffer is represented by `Device.CommitVertices` and `Device.CommitIndices`.
- MeshBuilder.FillVertices: the `unsigned int` loop counter is handed to `LoadTableWithIndex` as an `int`; the model takes it as an unbounded integer, so a vertices table of 2^31 or more entries, where that index wraps negative and the entry reads as nil, is not modelled.
- MeshBuilder.FillIndices: the `unsigned int` loop counter is handed to `LoadValueWithIndex` as an `int`, and the slot is `int x = i - 1`; the model takes both as unbounded integers, so an indices table of 2^31 or more entries, where they wrap negative, is not modelled.
- MeshBuilder.MeshBuilder.Build: records what each deleted pointer held but does not free the arrays, which stay readable in the model after `OnExit`. An undefined pointer that happens to be NULL, and so is not deleted, is recorded as undefined all the same.
- MeshResource.Mesh.LoadMesh: after `fread` writes through a NULL buffer the source's behaviour is undefined; the model counts that use and then goes on as for a short read, returning NULL and leaving the file open.
- Renderables.Renderable.Initialize: does not state which files are left open. A short read in `LoadMesh` leaves the mesh file open; `MeshResource.Mesh.LoadMesh` states this.
- Renderables.Renderable.ShutDown: states the result of the two shut-downs but not their order, which only shows in the driver's command log.
- EffectResource.Effect.Initialize: on failure states only that no shader object is held, not which objects were briefly created; the constant table that may remain is bounded by `Table()`.

## Findings

| source | as written | input that shows it | evidently intended | confidence | as-written member | corrected member |
|---|---|---|---|---|---|---|
| Code/Tools/MeshBuilder/cMeshBuilder.cpp:201-212 | under Direct3D the index at 0-based position x with x % 3 == 2 is stored at x - 1 and the one with x % 3 == 1 at x + 1, whatever the number of indices | five indices: the index at position 4 is stored at slot 5 of a 5-element array | exchange the second and third index of whole triangles only, and leave a trailing partial triangle in place | not executed | Winding.TrailingPairOverruns | Winding.RewindPermutes |
| Code/Engine/Graphics/Mesh.cpp:46-54 | the counts are taken from the header and the views set up without comparing them to the file size | an 8-byte file holding the counts 1 and 0: the vertex view covers bytes 8 to 19 of an 8-byte buffer | reject a file shorter than the record its header describes | not executed | MeshRecord.TruncatedRecordOverrunsViews | MeshResource.Mesh.LoadMesh |
| Code/Engine/Graphics/Mesh.d3d.cpp:118-232 | the index buffer is created for 6 indices (lines 118-123) and the vertex buffer for 4 vertices (lines 229-232), and then `mIndexCount` indices and `mVertexCount` vertices are copied into them | a valid record with five vertices and seven indices: both copy loops write past the locked memory | size both buffers from the mesh's counts, as `MeshResource.Mesh.CreateIndexBuffer`, `MeshResource.FillVertexBuffer` and `MeshResource.FillIndexBuffer` do | not executed | MeshResource.FixedBuffersOverrun | MeshResource.Mesh.CreateVertexBuffer |
