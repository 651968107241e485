/** `Graphics::Mesh`: loads a mesh record into a heap buffer, hands its vertex
    and index data to the driver (an OpenGL vertex array, or Direct3D vertex
    and index buffers with a vertex declaration), draws it, and releases the
    driver objects again. */
module MeshResource {
  import opened Bytes
  import opened VertexFormat
  import opened MeshRecord
  import opened Driver

  /** Where `mVertexData` or `mIndexData` points: nowhere, or `offset` bytes
      into heap block `block`. */
  datatype Ptr = Null | Into(block: nat, offset: nat)

  /** `size` bytes at `p` lie inside a live heap block (nothing is read
      through a null pointer with a size of zero). */
  predicate ViewFits(p: Ptr, size: nat, blocks: map<nat, seq<Byte>>)
  {
    match p
    case Null => size == 0
    case Into(b, off) => b in blocks && off + size <= |blocks[b]|
  }

  /** The `size` bytes at `p`. */
  function ViewBytes(p: Ptr, size: nat, blocks: map<nat, seq<Byte>>): (s: seq<Byte>)
    requires ViewFits(p, size, blocks)
    ensures |s| == size
    ensures p.Into? ==> s == blocks[p.block][p.offset .. p.offset + size]
  {
    match p
    case Null => []
    case Into(b, off) => blocks[b][off .. off + size]
  }

  // Direct3D 9 flag values, from d3d9.h and d3d9types.h.
  const D3DCREATE_SOFTWARE_VERTEXPROCESSING: bv32 := 0x20
  const D3DCREATE_HARDWARE_VERTEXPROCESSING: bv32 := 0x40
  const D3DCREATE_MIXED_VERTEXPROCESSING: bv32 := 0x80
  const D3DUSAGE_WRITEONLY: bv32 := 0x8
  const D3DUSAGE_SOFTWAREPROCESSING: bv32 := 0x10

  /** `GetVertexProcessingUsage` once the creation parameters were read:
      software processing usage exactly when the device does software vertex
      processing and no other kind. A mixed device, a hardware device
      (whether or not it also claims software processing) and a device that
      claims no kind get none. */
  function VertexProcessingUsage(behaviorFlags: bv32): (usage: bv32)
    ensures usage == D3DUSAGE_SOFTWAREPROCESSING || usage == 0
    ensures behaviorFlags & D3DCREATE_MIXED_VERTEXPROCESSING != 0 ==> usage == 0
    ensures behaviorFlags & D3DCREATE_HARDWARE_VERTEXPROCESSING != 0 ==> usage == 0
    ensures behaviorFlags & D3DCREATE_SOFTWARE_VERTEXPROCESSING == 0 ==> usage == 0
    ensures (&& behaviorFlags & D3DCREATE_HARDWARE_VERTEXPROCESSING == 0
             && behaviorFlags & D3DCREATE_MIXED_VERTEXPROCESSING == 0
             && behaviorFlags & D3DCREATE_SOFTWARE_VERTEXPROCESSING != 0) ==>
      usage == D3DUSAGE_SOFTWAREPROCESSING
  {
    var processing := behaviorFlags & (D3DCREATE_HARDWARE_VERTEXPROCESSING | D3DCREATE_MIXED_VERTEXPROCESSING
                                       | D3DCREATE_SOFTWARE_VERTEXPROCESSING);
    if processing != D3DCREATE_SOFTWARE_VERTEXPROCESSING then 0 else D3DUSAGE_SOFTWAREPROCESSING
  }

  /** The usage both buffers are created with: write-only, plus software
      processing when the device needs it. */
  function BufferUsage(behaviorFlags: bv32): bv32
  {
    VertexProcessingUsage(behaviorFlags) | D3DUSAGE_WRITEONLY
  }

  /** The buffers are always write-only, carry no flag but the two usage
      flags, and ask for software processing only on a software-only
      device: a device mixing hardware and software processing, or doing
      hardware processing, gets none. */
  lemma BufferUsageFlags(behaviorFlags: bv32)
    ensures BufferUsage(behaviorFlags) & D3DUSAGE_WRITEONLY == D3DUSAGE_WRITEONLY
    ensures BufferUsage(behaviorFlags) & !(D3DUSAGE_WRITEONLY | D3DUSAGE_SOFTWAREPROCESSING) == 0
    ensures behaviorFlags & D3DCREATE_MIXED_VERTEXPROCESSING != 0 ==>
      BufferUsage(behaviorFlags) == D3DUSAGE_WRITEONLY
    ensures behaviorFlags & D3DCREATE_HARDWARE_VERTEXPROCESSING != 0 ==>
      BufferUsage(behaviorFlags) == D3DUSAGE_WRITEONLY
    ensures (behaviorFlags & (D3DCREATE_HARDWARE_VERTEXPROCESSING | D3DCREATE_MIXED_VERTEXPROCESSING) == 0
             && behaviorFlags & D3DCREATE_SOFTWARE_VERTEXPROCESSING != 0) ==>
      BufferUsage(behaviorFlags) == D3DUSAGE_WRITEONLY | D3DUSAGE_SOFTWAREPROCESSING
  {
  }

  /** The steps of `CreateVertexArray` up to `OnExit`. */
  const GlUploadOrder: seq<Step> := [
    GenVertexArray, BindVertexArray, GenVertexBuffer, BindVertexBuffer, VertexBufferData,
    PositionPointer, PositionEnable, ColorPointer, ColorEnable,
    GenIndexBuffer, BindIndexBuffer, IndexBufferData]

  /** The steps of its `OnExit` block after a complete upload. */
  const GlCleanupOrder: seq<Step> := [UnbindVertexArray, DeleteVertexBuffer, DeleteIndexBuffer]

  /** The steps of `CreateVertexBuffer` and of `CreateIndexBuffer`. */
  const VertexBufferOrder: seq<Step> := [CreationParameters(false)] + DeclarationSteps + VertexFillSteps

  const IndexBufferOrder: seq<Step> := [CreationParameters(true)] + IndexFillSteps

  /** How far `CreateVertexBuffer` gets: the vertex declaration exists, the
      vertex buffer exists, the vertex buffer was locked and filled. */
  predicate DeclarationMade(fails: set<Step>)
  {
    CreationParameters(false) !in fails && CreateVertexDeclaration !in fails
  }

  predicate VertexBufferMade(fails: set<Step>)
  {
    DeclarationMade(fails) && SetVertexDeclaration !in fails && CreateVertexBuffer !in fails
  }

  predicate VerticesWritten(fails: set<Step>)
  {
    VertexBufferMade(fails) && LockVertexBuffer !in fails
  }

  /** How far `CreateIndexBuffer` gets: the index buffer exists, it was
      locked and filled. */
  predicate IndexBufferMade(fails: set<Step>)
  {
    CreationParameters(true) !in fails && CreateIndexBuffer !in fails
  }

  predicate IndicesWritten(fails: set<Step>)
  {
    IndexBufferMade(fails) && LockIndexBuffer !in fails
  }

  /** The steps `Mesh::Initialize` runs until one fails. */
  function InitializeOrder(backend: Backend): seq<Step>
  {
    if backend == GL then GlUploadOrder else VertexBufferOrder + IndexBufferOrder
  }

  /** What must also succeed, after the upload, for `Initialize` to report
      success. */
  function CleanupOrder(backend: Backend): seq<Step>
  {
    if backend == GL then GlCleanupOrder else []
  }

  /** The commands a complete `CreateVertexArray` issues: bind the new vertex
      array, fill a vertex buffer with the vertex bytes, describe position
      and colour, fill an index buffer with the index bytes, unbind. */
  function GlUploadLog(vertexArray: nat, vertexBuffer: nat, indexBuffer: nat,
                       vertexBytes: seq<Byte>, indexBytes: seq<Byte>): seq<Command>
  {
    var atts := GlAttributes(0);
    [ BindVertexArrayCmd(vertexArray),
      BindBufferCmd(ArrayBuffer, vertexBuffer), BufferDataCmd(ArrayBuffer, vertexBytes),
      VertexAttribPointerCmd(atts[0], VertexSize), EnableVertexAttribArrayCmd(atts[0].location),
      VertexAttribPointerCmd(atts[1], VertexSize), EnableVertexAttribArrayCmd(atts[1].location),
      BindBufferCmd(ElementArrayBuffer, indexBuffer), BufferDataCmd(ElementArrayBuffer, indexBytes),
      BindVertexArrayCmd(0) ]
  }

  /** The vertex buffer the Direct3D code creates, as written: room for four
      vertices, whatever `mVertexCount` is. */
  const FixedVertexBufferSize: nat := 4 * VertexSize

  /** The index buffer, as written: room for two triangles. */
  const FixedIndexBufferSize: nat := 2 * 3 * 4

  /** As written, the copy loops write `mVertexCount` vertices and
      `mIndexCount` indices into those fixed buffers. A record the loader
      accepts (five vertices, seven indices) makes both loops write past the
      end of the locked memory. */
  lemma FixedBuffersOverrun()
    ensures var s := U32ToLe(5) + U32ToLe(7) + seq(5 * VertexSize + 7 * 4, k => 0);
      && Parse(D3D, s).Some?
      && VertexSize * HeaderCounts(s).0 > FixedVertexBufferSize
      && 4 * HeaderCounts(s).1 > FixedIndexBufferSize
  {
    var s := U32ToLe(5) + U32ToLe(7) + seq(5 * VertexSize + 7 * 4, k => 0);
    assert s[0..4] == U32ToLe(5) && s[4..8] == U32ToLe(7);
    U32RoundTrip(5);
    U32RoundTrip(7);
  }

  /** Views set up as `LoadMesh` sets them up on a buffer holding a record
      with `vc` vertices and `ic` indices show the record's two segments. */
  lemma LoadedViews(blocks: map<nat, seq<Byte>>, buffer: nat, vc: nat, ic: nat)
    requires buffer in blocks && RecordSize(vc, ic) <= |blocks[buffer]|
    ensures var vp, ip := Into(buffer, HeaderSize), Into(buffer, HeaderSize + VertexSize * vc);
      && ViewFits(vp, VertexSize * vc, blocks) && ViewFits(ip, 4 * ic, blocks)
      && ViewBytes(vp, VertexSize * vc, blocks) == blocks[buffer][HeaderSize .. HeaderSize + VertexSize * vc]
      && ViewBytes(ip, 4 * ic, blocks) == blocks[buffer][HeaderSize + VertexSize * vc .. RecordSize(vc, ic)]
  {
  }

  /** The vertex copy loop of `CreateVertexBuffer`: vertex `i` of the mesh
      goes to vertex `i` of the locked buffer, for every `i` below the count. */
  method CopyVertices(locked: array<Byte>, source: seq<Byte>, count: nat)
    requires locked.Length == VertexSize * count == |source|
    modifies locked
    ensures locked[..] == source
  {
    var i := 0;
    while i < count
      invariant 0 <= i <= count
      invariant forall k :: 0 <= k < VertexSize * i ==> locked[k] == source[k]
    {
      forall k | VertexSize * i <= k < VertexSize * i + VertexSize {
        locked[k] := source[k];
      }
      i := i + 1;
    }
  }

  /** The index copy loop of `CreateIndexBuffer`: index `i` of the mesh, read
      from its four bytes, goes to index `i` of the locked buffer. */
  method CopyIndices(locked: array<U32>, source: seq<Byte>, count: nat)
    requires locked.Length == count && |source| == 4 * count
    modifies locked
    ensures locked[..] == LeToU32s(source)
  {
    var i := 0;
    while i < count
      invariant 0 <= i <= count
      invariant forall k :: 0 <= k < i ==> locked[k] == LeToU32s(source)[k]
    {
      locked[i] := LeToU32(source[4 * i .. 4 * i + 4]);
      LeToU32sAt(source, i);
      i := i + 1;
    }
  }

  /** `LoadMesh` reads the file into a NULL buffer: it opened, and
      `malloc` failed. */
  predicate ReadsThroughNull(fails: set<Step>)
  {
    OpenMeshFile !in fails && AllocateMeshBuffer in fails
  }

  class Mesh {
    const backend: Backend
    var vertexCount: U32
    var indexCount: U32
    var vertexData: Ptr
    var indexData: Ptr
    /** OpenGL: `s_vertexArrayId`, which no constructor initialises. */
    var vertexArrayId: nat
    /** Direct3D: `s_vertexDeclaration`, `s_vertexBuffer`, `s_indexBuffer`;
        0 is NULL. */
    var vertexDeclaration: nat
    var vertexBuffer: nat
    var indexBuffer: nat
    /** Whether the C++ object has been `delete`d. */
    ghost var deleted: bool

    /** `Mesh()`: no data, zero counts, no Direct3D objects. The OpenGL
        vertex array id is left as it happens to be. */
    constructor (backend: Backend)
      ensures this.backend == backend
      ensures Unloaded()
      ensures vertexDeclaration == 0 && vertexBuffer == 0 && indexBuffer == 0
      ensures !deleted
    {
      this.backend := backend;
      vertexCount, indexCount := 0, 0;
      vertexData, indexData := Null, Null;
      vertexDeclaration, vertexBuffer, indexBuffer := 0, 0, 0;
      deleted := false;
    }

    /** No file has been loaded: both views are NULL and empty, as a new
        mesh has them. */
    predicate Unloaded()
      reads this`vertexData, this`vertexCount, this`indexData, this`indexCount
    {
      vertexCount == 0 && indexCount == 0 && vertexData == Null && indexData == Null
    }

    /** Both views can be read. */
    predicate ViewsReadable(dev: Device)
      reads this`vertexData, this`vertexCount, this`indexData, this`indexCount, dev`blocks
    {
      ViewFits(vertexData, VertexSize * vertexCount, dev.blocks)
        && ViewFits(indexData, 4 * indexCount, dev.blocks)
    }

    /** The `mVertexCount` vertices at `mVertexData`, as bytes. */
    function VertexBytes(dev: Device): (s: seq<Byte>)
      reads this`vertexData, this`vertexCount, this`indexData, this`indexCount, dev`blocks
      requires ViewsReadable(dev)
      ensures |s| == VertexSize * vertexCount
    {
      ViewBytes(vertexData, VertexSize * vertexCount, dev.blocks)
    }

    /** The `mIndexCount` indices at `mIndexData`, as bytes. */
    function IndexBytes(dev: Device): (s: seq<Byte>)
      reads this`vertexData, this`vertexCount, this`indexData, this`indexCount, dev`blocks
      requires ViewsReadable(dev)
      ensures |s| == 4 * indexCount
    {
      ViewBytes(indexData, 4 * indexCount, dev.blocks)
    }

    /** The mesh the views show. */
    ghost function Contents(dev: Device): (m: MeshData)
      reads this`vertexData, this`vertexCount, this`indexData, this`indexCount, dev`blocks
      requires ViewsReadable(dev)
      ensures |m.vertices| == vertexCount as int && |m.indices| == indexCount as int
    {
      BackendOrders(backend);
      MeshData(DecodeVertices(EngineChannels(backend), VertexBytes(dev)), LeToU32s(IndexBytes(dev)))
    }

    /** The driver objects the mesh holds. */
    function Held(): set<Obj>
      reads this`vertexArrayId, this`vertexDeclaration, this`vertexBuffer, this`indexBuffer
    {
      if backend == GL then
        (if vertexArrayId != 0 then {Obj(VertexArrayObject, vertexArrayId)} else {})
      else
        (if vertexDeclaration != 0 then {Obj(VertexDeclarationObject, vertexDeclaration)} else {})
        + (if vertexBuffer != 0 then {Obj(VertexBufferObject, vertexBuffer)} else {})
        + (if indexBuffer != 0 then {Obj(IndexBufferObject, indexBuffer)} else {})
    }

    /** `LoadMesh`, with the length check the source lacks: the whole file
        (`file`, as it is on disk) is read into a new heap block, the counts
        are taken from its header and the views point into it. When the
        file does not open the result is NULL. The `malloc` result is not
        checked: when it is NULL, `fread` writes through it, which is
        recorded as a use of an invalid pointer, and the model goes on as
        for a short read. When the read comes up short the block is freed
        and the file is left open; when the header promises more data than
        the file holds the block is freed, the file closed and the result
        NULL. */
    method LoadMesh(dev: Device, file: seq<Byte>, fails: set<Step>) returns (buffer: nat)
      requires dev.Valid()
      modifies this`vertexCount, this`indexCount, this`vertexData, this`indexData
      modifies dev`blocks, dev`nextBlock, dev`freed, dev`openFiles, dev`next, dev`danglingUses
      ensures dev.Valid()
      ensures buffer != 0 <==>
        OpenMeshFile !in fails && AllocateMeshBuffer !in fails && ReadMeshFile !in fails && Parse(backend, file).Some?
      ensures dev.danglingUses == old(dev.danglingUses) + (if ReadsThroughNull(fails) then 1 else 0)
      ensures buffer == 0 ==>
        && dev.blocks == old(dev.blocks)
        && vertexCount == old(vertexCount) && indexCount == old(indexCount)
        && vertexData == old(vertexData) && indexData == old(indexData)
      ensures buffer != 0 ==>
        && buffer !in old(dev.blocks) && dev.blocks == old(dev.blocks)[buffer := file]
        && (vertexCount, indexCount) == HeaderCounts(file)
        && vertexData == Into(buffer, ViewOffsets(file).0) && indexData == Into(buffer, ViewOffsets(file).1)
        && ViewsReadable(dev)
        && Parse(backend, file) == Some(Contents(dev))
      ensures old(dev.freed) <= dev.freed
      ensures |dev.freed| == |old(dev.freed)|
        + (if OpenMeshFile !in fails && AllocateMeshBuffer !in fails && buffer == 0 then 1 else 0)
      ensures old(dev.openFiles) <= dev.openFiles && |dev.openFiles| <= |old(dev.openFiles)| + 1
      ensures dev.openFiles == old(dev.openFiles) <==>
        !(OpenMeshFile !in fails && (AllocateMeshBuffer in fails || ReadMeshFile in fails))
    {
      if OpenMeshFile in fails {
        return 0;
      }
      var handle := dev.OpenFile();
      if AllocateMeshBuffer in fails {
        dev.UseDangling(1);
        return 0;
      }
      buffer := dev.Allocate(file);
      if ReadMeshFile in fails {
        dev.Free(buffer);
        return 0;
      }
      if |file| < HeaderSize || !ViewsInBounds(file) {
        dev.Free(buffer);
        dev.CloseFile(handle);
        return 0;
      }
      PointInto(dev, buffer);
      dev.CloseFile(handle);
    }

    /** The header reads and pointer arithmetic of `LoadMesh`, on a heap block
        holding a record. */
    method PointInto(dev: Device, buffer: nat)
      requires buffer in dev.blocks && |dev.blocks[buffer]| >= HeaderSize && ViewsInBounds(dev.blocks[buffer])
      modifies this`vertexCount, this`indexCount, this`vertexData, this`indexData
      ensures var file := dev.blocks[buffer];
        && (vertexCount, indexCount) == HeaderCounts(file)
        && vertexData == Into(buffer, ViewOffsets(file).0) && indexData == Into(buffer, ViewOffsets(file).1)
        && ViewsReadable(dev)
        && Parse(backend, file) == Some(Contents(dev))
    {
      var file := dev.blocks[buffer];
      var offsets := ViewOffsets(file);
      vertexCount, indexCount := LeToU32(file[0..4]), LeToU32(file[4..8]);
      vertexData, indexData := Into(buffer, offsets.0), Into(buffer, offsets.1);
      LoadedViews(dev.blocks, buffer, vertexCount as nat, indexCount as nat);
      ParseUnfold(backend, file, vertexCount as nat, indexCount as nat);
    }

    /** `Initialize`: uploads the views (OpenGL: `CreateVertexArray`;
        Direct3D: `CreateVertexBuffer`, then `CreateIndexBuffer` if that
        worked), frees `buffer` (what `LoadMesh` returned, possibly NULL)
        whatever happened, and shuts the mesh down when the upload failed.
        Under Direct3D the device must be set. */
    method Initialize(dev: Device, buffer: nat, fails: set<Step>) returns (ok: bool, ghost attempted: seq<Step>)
      requires dev.Valid() && ViewsReadable(dev)
      requires backend == D3D ==> dev.attached
      modifies this`vertexArrayId, this`vertexDeclaration, this`vertexBuffer, this`indexBuffer
      modifies dev`live, dev`next, dev`log, dev`vertexContents, dev`indexContents, dev`blocks, dev`freed
      ensures dev.Valid()
      ensures StopsAtFirstFailure(InitializeOrder(backend), fails, attempted)
      ensures ok <==> AllSucceed(InitializeOrder(backend) + CleanupOrder(backend), fails)
      ensures dev.blocks == old(dev.blocks) - {buffer}
      ensures dev.freed == old(dev.freed) + (if buffer == 0 then [] else [buffer])
      ensures !ok ==> Held() == {}
      ensures !ok && (backend == D3D || UnbindVertexArray !in fails) ==> dev.live <= old(dev.live)
      ensures !ok ==> forall o :: o in dev.live && o !in old(dev.live) ==> o.kind == BufferObject
      ensures ok ==> old(dev.live) !! Held() && dev.live == old(dev.live) + Held()
      ensures ok && backend == GL ==> exists vb, ib ::
        dev.log == old(dev.log) + GlUploadLog(vertexArrayId, vb, ib, old(VertexBytes(dev)), old(IndexBytes(dev)))
      ensures ok && backend == D3D ==>
        && dev.vertexContents == old(dev.vertexContents)[vertexBuffer := old(VertexBytes(dev))]
        && dev.indexContents == old(dev.indexContents)[indexBuffer := LeToU32s(old(IndexBytes(dev)))]
    {
      if backend == GL {
        ok, attempted := CreateVertexArray(dev, fails);
      } else {
        ok, attempted := CreateBuffers(dev, fails);
        assert InitializeOrder(backend) + CleanupOrder(backend) == VertexBufferOrder + IndexBufferOrder;
      }
      dev.Free(buffer);
      if !ok {
        ghost var uploaded := dev.live;
        var shut := ShutDown(dev);
        assert dev.live <= uploaded;
      }
    }

    /** The Direct3D upload of `Initialize`: the vertex buffer and, if it
        was made, the index buffer. */
    method CreateBuffers(dev: Device, fails: set<Step>) returns (ok: bool, ghost attempted: seq<Step>)
      requires backend == D3D && dev.Valid() && ViewsReadable(dev)
      modifies this`vertexDeclaration, this`vertexBuffer, this`indexBuffer
      modifies dev`live, dev`next, dev`log, dev`vertexContents, dev`indexContents
      ensures dev.Valid()
      ensures StopsAtFirstFailure(VertexBufferOrder + IndexBufferOrder, fails, attempted)
      ensures ok <==> AllSucceed(VertexBufferOrder + IndexBufferOrder, fails)
      ensures dev.live - old(dev.live) <= Held()
      ensures ok ==> old(dev.live) !! Held() && dev.live == old(dev.live) + Held()
      ensures ok ==>
        && dev.vertexContents == old(dev.vertexContents)[vertexBuffer := old(VertexBytes(dev))]
        && dev.indexContents == old(dev.indexContents)[indexBuffer := LeToU32s(old(IndexBytes(dev)))]
    {
      ghost var vertexBytes, indexBytes := VertexBytes(dev), IndexBytes(dev);
      ok, attempted := CreateVertexBuffer(dev, fails);
      if !ok {
        StopsEarly(VertexBufferOrder, IndexBufferOrder, fails, attempted);
        return;
      }
      ghost var vertexContents := dev.vertexContents;
      assert vertexContents == old(dev.vertexContents)[vertexBuffer := vertexBytes];
      assert IndexBytes(dev) == indexBytes;
      ghost var declaration := Obj(VertexDeclarationObject, vertexDeclaration);
      ghost var vertices := Obj(VertexBufferObject, vertexBuffer);
      ghost var live1 := dev.live;
      assert live1 == old(dev.live) + {declaration, vertices};
      ghost var a;
      ok, a := CreateIndexBuffer(dev, fails);
      StopsAtFirstFailureThen(VertexBufferOrder, IndexBufferOrder, fails, attempted, a);
      attempted := attempted + a;
      if ok {
        var indices := Obj(IndexBufferObject, indexBuffer);
        assert indices !in live1 && dev.live == live1 + {indices};
        assert Held() == {declaration, vertices, indices};
      }
    }

    /** Draws the mesh as written: two triangles, whatever the counts. */
    method Draw(dev: Device)
      requires backend == D3D ==> dev.attached
      modifies dev`log
      ensures dev.log == old(dev.log) + DrawLog()
      ensures backend == GL ==> DrawLog()[1] == DrawElementsCmd(2 * 3)
      ensures backend == D3D ==> DrawLog()[2] == DrawIndexedPrimitiveCmd(0, 0, 4, 0, 2)
    {
      if backend == GL {
        dev.Issue(BindVertexArrayCmd(vertexArrayId));
        dev.Issue(DrawElementsCmd(2 * 3));
      } else {
        dev.Issue(SetStreamSourceCmd(0, vertexBuffer, 0, VertexSize));
        dev.Issue(SetIndicesCmd(indexBuffer));
        dev.Issue(DrawIndexedPrimitiveCmd(0, 0, 4, 0, 2));
      }
    }

    /** The commands `Draw` issues: OpenGL binds the vertex array and draws
        six indices; Direct3D sets the vertex and index buffers and draws
        two triangles over four vertices. */
    function DrawLog(): seq<Command>
      reads this`vertexArrayId, this`vertexBuffer, this`indexBuffer
    {
      if backend == GL then [BindVertexArrayCmd(vertexArrayId), DrawElementsCmd(2 * 3)]
      else [SetStreamSourceCmd(0, vertexBuffer, 0, VertexSize), SetIndicesCmd(indexBuffer),
            DrawIndexedPrimitiveCmd(0, 0, 4, 0, 2)]
    }

    /** `ShutDown`: releases every driver object the mesh holds and forgets
        it, so that a second call does nothing. Under Direct3D this happens
        only while a device is set, and the vertex declaration is unset from
        the device before it is released. Errors are only reported, never
        returned. */
    method ShutDown(dev: Device) returns (ok: bool)
      requires dev.Valid()
      modifies this`vertexArrayId, this`vertexDeclaration, this`vertexBuffer, this`indexBuffer
      modifies dev`live, dev`log
      ensures ok && dev.Valid()
      ensures backend == GL || dev.attached ==>
        Held() == {} && dev.live == old(dev.live) - old(Held())
      ensures backend == D3D && !dev.attached ==>
        Held() == old(Held()) && dev.live == old(dev.live)
      ensures dev.log == old(dev.log) + (
        if backend == D3D && dev.attached && old(vertexDeclaration) != 0 then [SetVertexDeclarationCmd(0)] else [])
      ensures old(Held()) == {} ==> dev.live == old(dev.live) && dev.log == old(dev.log)
    {
      if backend == GL {
        if vertexArrayId != 0 {
          dev.Destroy(VertexArrayObject, vertexArrayId);
          vertexArrayId := 0;
        }
      } else if dev.attached {
        if vertexBuffer != 0 {
          dev.Destroy(VertexBufferObject, vertexBuffer);
          vertexBuffer := 0;
        }
        if indexBuffer != 0 {
          dev.Destroy(IndexBufferObject, indexBuffer);
          indexBuffer := 0;
        }
        if vertexDeclaration != 0 {
          dev.Issue(SetVertexDeclarationCmd(0));
          dev.Destroy(VertexDeclarationObject, vertexDeclaration);
          vertexDeclaration := 0;
        }
      }
      return true;
    }

    /** The first block of `CreateVertexArray`: a new vertex array id, bound. */
    method CreateVertexArrayObject(dev: Device, fails: set<Step>) returns (ok: bool, ghost attempted: seq<Step>)
      requires dev.Valid()
      modifies this`vertexArrayId, dev`live, dev`next, dev`log
      ensures dev.Valid()
      ensures StopsAtFirstFailure(VertexArraySteps, fails, attempted)
      ensures ok <==> AllSucceed(VertexArraySteps, fails)
      ensures GenVertexArray in fails ==> vertexArrayId == old(vertexArrayId) && dev.live == old(dev.live)
      ensures GenVertexArray !in fails ==>
        && vertexArrayId != 0 && Obj(VertexArrayObject, vertexArrayId) !in old(dev.live)
        && dev.live == old(dev.live) + {Obj(VertexArrayObject, vertexArrayId)}
      ensures ok ==> GenVertexArray !in fails
      ensures ok ==> dev.log == old(dev.log) + [BindVertexArrayCmd(vertexArrayId)]
    {
      AllSucceedMembers(VertexArraySteps, fails);
      attempted := [GenVertexArray];
      if GenVertexArray in fails {
        return false, attempted;
      }
      vertexArrayId := dev.Create(VertexArrayObject);
      attempted := attempted + [BindVertexArray];
      dev.Issue(BindVertexArrayCmd(vertexArrayId));
      ok := BindVertexArray !in fails;
    }

    /** `CreateVertexArray`: uploads the views into a new vertex array. The
        temporary buffer ids are deleted at `OnExit` whenever the vertex
        array id is not 0 and unbinding it succeeds; the vertex array itself
        stays alive even when a later step fails. */
    method CreateVertexArray(dev: Device, fails: set<Step>) returns (ok: bool, ghost attempted: seq<Step>)
      requires backend == GL && dev.Valid() && ViewsReadable(dev)
      modifies this`vertexArrayId, dev`live, dev`next, dev`log
      ensures dev.Valid()
      ensures StopsAtFirstFailure(GlUploadOrder, fails, attempted)
      ensures ok <==> AllSucceed(GlUploadOrder + GlCleanupOrder, fails)
      ensures GenVertexArray in fails ==> vertexArrayId == old(vertexArrayId) && dev.live == old(dev.live)
      ensures GenVertexArray !in fails ==>
        vertexArrayId != 0 && Obj(VertexArrayObject, vertexArrayId) !in old(dev.live)
      ensures old(dev.live) <= dev.live
      ensures forall o :: o in dev.live && o !in old(dev.live) ==>
        o.kind == BufferObject || o == Obj(VertexArrayObject, vertexArrayId)
      ensures GenVertexArray !in fails && UnbindVertexArray !in fails ==>
        dev.live == old(dev.live) + Held()
      ensures ok ==> old(dev.live) !! Held() && dev.live == old(dev.live) + Held()
      ensures ok ==> exists vb, ib ::
        dev.log == old(dev.log) + GlUploadLog(vertexArrayId, vb, ib, old(VertexBytes(dev)), old(IndexBytes(dev)))
    {
      var vertexBytes, indexBytes := VertexBytes(dev), IndexBytes(dev);
      var vertexBufferId, indexBufferId;
      ghost var log0 := dev.log;
      ok, vertexBufferId, indexBufferId, attempted := Upload(dev, fails, vertexBytes, indexBytes);
      ghost var uploaded := dev.live;
      // OnExit
      if vertexArrayId != 0 {
        var cleaned := DeleteTemporaries(dev, fails, vertexBufferId, indexBufferId);
        ok := ok && cleaned;
      }
      assert dev.live <= uploaded;
      forall o | o in dev.live && o !in old(dev.live)
        ensures o.kind == BufferObject || o == Obj(VertexArrayObject, vertexArrayId)
      {
        assert o in uploaded - old(dev.live);
      }
      if GenVertexArray !in fails && UnbindVertexArray !in fails {
        var vao := Obj(VertexArrayObject, vertexArrayId);
        var temporaries := {Obj(BufferObject, vertexBufferId), Obj(BufferObject, indexBufferId)};
        assert dev.live == uploaded - temporaries;
        assert vao in uploaded && vao !in temporaries;
        assert old(dev.live) * temporaries == {};
        assert old(dev.live) <= uploaded && uploaded - old(dev.live) <= {vao} + temporaries;
        assert dev.live == old(dev.live) + {vao};
      }
      AllSucceedMembers(GlUploadOrder + GlCleanupOrder, fails);
      AllSucceedMembers(GlUploadOrder, fails);
      if ok {
        assert dev.log == log0 + GlUploadLog(vertexArrayId, vertexBufferId, indexBufferId, vertexBytes, indexBytes);
      }
    }

    /** The blocks of `CreateVertexArray` before `OnExit`, each run only when
        the ones before it succeeded. */
    method Upload(dev: Device, fails: set<Step>, vertexBytes: seq<Byte>, indexBytes: seq<Byte>)
      returns (ok: bool, vertexBufferId: nat, indexBufferId: nat, ghost attempted: seq<Step>)
      requires dev.Valid()
      modifies this`vertexArrayId, dev`live, dev`next, dev`log
      ensures dev.Valid()
      ensures StopsAtFirstFailure(GlUploadOrder, fails, attempted)
      ensures ok <==> AllSucceed(GlUploadOrder, fails)
      ensures GenVertexArray in fails ==> vertexArrayId == old(vertexArrayId)
      ensures GenVertexArray !in fails ==>
        && vertexArrayId != 0 && Obj(VertexArrayObject, vertexArrayId) in dev.live
        && Obj(VertexArrayObject, vertexArrayId) !in old(dev.live)
      ensures GenVertexArray in fails ==> vertexBufferId == 0 && indexBufferId == 0 && dev.live == old(dev.live)
      ensures Obj(BufferObject, vertexBufferId) !in old(dev.live) && Obj(BufferObject, indexBufferId) !in old(dev.live)
      ensures old(dev.live) <= dev.live
      ensures dev.live - old(dev.live) <=
        {Obj(VertexArrayObject, vertexArrayId), Obj(BufferObject, vertexBufferId), Obj(BufferObject, indexBufferId)}
      ensures ok ==> vertexBufferId != 0 && indexBufferId != 0
      ensures ok ==>
        dev.log + [BindVertexArrayCmd(0)]
          == old(dev.log) + GlUploadLog(vertexArrayId, vertexBufferId, indexBufferId, vertexBytes, indexBytes)
    {
      ghost var a: seq<Step>;
      ghost var log0 := dev.log;
      assert GlUploadOrder == VertexUploadSteps + IndexUploadSteps;
      ok, vertexBufferId, attempted := UploadVertices(dev, fails, vertexBytes);
      if !ok {
        StopsEarly(VertexUploadSteps, IndexUploadSteps, fails, attempted);
        return ok, vertexBufferId, 0, attempted;
      }
      ghost var log1, live1 := dev.log, dev.live;
      ok, indexBufferId, a := UploadIndices(dev, fails, indexBytes);
      assert dev.live - old(dev.live) <= (live1 - old(dev.live)) + (dev.live - live1);
      StopsAtFirstFailureThen(VertexUploadSteps, IndexUploadSteps, fails, attempted, a);
      attempted := attempted + a;
      if ok {
        assert GlUploadLog(vertexArrayId, vertexBufferId, indexBufferId, vertexBytes, indexBytes)
          == log1[|log0|..] + dev.log[|log1|..] + [BindVertexArrayCmd(0)];
      }
    }

    /** The first two blocks of `CreateVertexArray`: a vertex array, and a
        vertex buffer filled with the vertex bytes. */
    method UploadVertices(dev: Device, fails: set<Step>, vertexBytes: seq<Byte>)
      returns (ok: bool, vertexBufferId: nat, ghost attempted: seq<Step>)
      requires dev.Valid()
      modifies this`vertexArrayId, dev`live, dev`next, dev`log
      ensures dev.Valid()
      ensures StopsAtFirstFailure(VertexUploadSteps, fails, attempted)
      ensures ok <==> AllSucceed(VertexUploadSteps, fails)
      ensures GenVertexArray in fails ==> vertexArrayId == old(vertexArrayId) && vertexBufferId == 0 && dev.live == old(dev.live)
      ensures GenVertexArray !in fails ==>
        && vertexArrayId != 0 && Obj(VertexArrayObject, vertexArrayId) in dev.live
        && Obj(VertexArrayObject, vertexArrayId) !in old(dev.live)
      ensures Obj(BufferObject, vertexBufferId) !in old(dev.live)
      ensures old(dev.live) <= dev.live
      ensures dev.live - old(dev.live) <= {Obj(VertexArrayObject, vertexArrayId), Obj(BufferObject, vertexBufferId)}
      ensures ok ==> vertexBufferId != 0 && dev.log == old(dev.log) + [BindVertexArrayCmd(vertexArrayId),
        BindBufferCmd(ArrayBuffer, vertexBufferId), BufferDataCmd(ArrayBuffer, vertexBytes)]
    {
      ghost var a: seq<Step>;
      vertexBufferId := 0;
      ok, attempted := CreateVertexArrayObject(dev, fails);
      if !ok {
        StopsEarly(VertexArraySteps, BufferSteps(ArrayBuffer), fails, attempted);
        return;
      }
      ok, vertexBufferId, a := CreateBufferObject(dev, fails, ArrayBuffer, vertexBytes);
      StopsAtFirstFailureThen(VertexArraySteps, BufferSteps(ArrayBuffer), fails, attempted, a);
      attempted := attempted + a;
    }

    /** `CreateVertexBuffer` (Direct3D), with the buffer sized for the
        mesh's vertices: the usage from the device's creation parameters, a
        vertex declaration created and set, a vertex buffer created, locked,
        filled with the vertex view and unlocked. A declaration or buffer
        that was created stays set on the mesh when a later step fails. */
    method CreateVertexBuffer(dev: Device, fails: set<Step>) returns (ok: bool, ghost attempted: seq<Step>)
      requires backend == D3D && dev.Valid() && ViewsReadable(dev)
      modifies this`vertexDeclaration, this`vertexBuffer, dev`live, dev`next, dev`log, dev`vertexContents
      ensures dev.Valid()
      ensures StopsAtFirstFailure(VertexBufferOrder, fails, attempted)
      ensures ok <==> AllSucceed(VertexBufferOrder, fails)
      ensures DeclarationMade(fails) ==>
        vertexDeclaration != 0 && Obj(VertexDeclarationObject, vertexDeclaration) !in old(dev.live)
      ensures !DeclarationMade(fails) ==> vertexDeclaration == old(vertexDeclaration)
      ensures VertexBufferMade(fails) ==>
        vertexBuffer != 0 && Obj(VertexBufferObject, vertexBuffer) !in old(dev.live)
      ensures !VertexBufferMade(fails) ==> vertexBuffer == old(vertexBuffer)
      ensures dev.live == old(dev.live)
        + (if DeclarationMade(fails) then {Obj(VertexDeclarationObject, vertexDeclaration)} else {})
        + (if VertexBufferMade(fails) then {Obj(VertexBufferObject, vertexBuffer)} else {})
      ensures VerticesWritten(fails) ==>
        dev.vertexContents == old(dev.vertexContents)[vertexBuffer := old(VertexBytes(dev))]
      ensures !VerticesWritten(fails) ==> dev.vertexContents == old(dev.vertexContents)
      ensures ok ==> VerticesWritten(fails)
      ensures ok ==> dev.log == old(dev.log) + [
        CreateVertexDeclarationCmd(D3DDeclaration()), SetVertexDeclarationCmd(vertexDeclaration),
        CreateVertexBufferCmd(VertexSize * vertexCount, BufferUsage(dev.behaviorFlags))]
    {
      var data := VertexBytes(dev);
      ghost var log0 := dev.log;
      attempted := [CreationParameters(false)];
      ghost var rest := DeclarationSteps + VertexFillSteps;
      assert VertexBufferOrder == attempted + rest;
      if CreationParameters(false) in fails {
        AllSucceedMembers(attempted, fails);
        StopsEarly(attempted, rest, fails, attempted);
        return false, attempted;
      }
      var usage := BufferUsage(dev.behaviorFlags);
      var declaration;
      ghost var a;
      ok, declaration, a := CreateDeclaration(dev, fails);
      StopsAtFirstFailureThen([CreationParameters(false)], DeclarationSteps, fails, attempted, a);
      if declaration != 0 {
        vertexDeclaration := declaration;
      }
      ghost var done := [CreationParameters(false)] + DeclarationSteps;
      attempted := attempted + a;
      assert VertexBufferOrder == done + VertexFillSteps;
      AllSucceedMembers(DeclarationSteps, fails);
      if !ok {
        StopsEarly(done, VertexFillSteps, fails, attempted);
        return;
      }
      ghost var log1 := dev.log;
      assert log1 == log0 + [CreateVertexDeclarationCmd(D3DDeclaration()), SetVertexDeclarationCmd(vertexDeclaration)];
      var buffer;
      ok, buffer, a := FillVertexBuffer(dev, fails, data, vertexCount as nat, usage);
      StopsAtFirstFailureThen(done, VertexFillSteps, fails, attempted, a);
      attempted := attempted + a;
      if buffer != 0 {
        vertexBuffer := buffer;
      }
      AllSucceedMembers(VertexFillSteps, fails);
      if ok {
        assert dev.log == log1 + [CreateVertexBufferCmd(VertexSize * vertexCount, usage)];
      }
    }

    /** `CreateIndexBuffer` (Direct3D), with the buffer sized for the
        mesh's indices: the usage from the device's creation parameters, an
        index buffer created, locked, filled with the index view and
        unlocked. */
    method CreateIndexBuffer(dev: Device, fails: set<Step>) returns (ok: bool, ghost attempted: seq<Step>)
      requires backend == D3D && dev.Valid() && ViewsReadable(dev)
      modifies this`indexBuffer, dev`live, dev`next, dev`log, dev`indexContents
      ensures dev.Valid()
      ensures StopsAtFirstFailure(IndexBufferOrder, fails, attempted)
      ensures ok <==> AllSucceed(IndexBufferOrder, fails)
      ensures IndexBufferMade(fails) ==>
        indexBuffer != 0 && Obj(IndexBufferObject, indexBuffer) !in old(dev.live)
      ensures !IndexBufferMade(fails) ==> indexBuffer == old(indexBuffer)
      ensures dev.live == old(dev.live)
        + (if IndexBufferMade(fails) then {Obj(IndexBufferObject, indexBuffer)} else {})
      ensures IndicesWritten(fails) ==>
        dev.indexContents == old(dev.indexContents)[indexBuffer := LeToU32s(old(IndexBytes(dev)))]
      ensures !IndicesWritten(fails) ==> dev.indexContents == old(dev.indexContents)
      ensures ok ==> IndicesWritten(fails)
      ensures ok ==> dev.log == old(dev.log) + [CreateIndexBufferCmd(4 * indexCount, BufferUsage(dev.behaviorFlags))]
    {
      var data := IndexBytes(dev);
      attempted := [CreationParameters(true)];
      assert IndexBufferOrder == attempted + IndexFillSteps;
      if CreationParameters(true) in fails {
        AllSucceedMembers(attempted, fails);
        StopsEarly(attempted, IndexFillSteps, fails, attempted);
        return false, attempted;
      }
      var buffer;
      ghost var a;
      ok, buffer, a := FillIndexBuffer(dev, fails, data, indexCount as nat, BufferUsage(dev.behaviorFlags));
      StopsAtFirstFailureThen(attempted, IndexFillSteps, fails, attempted, a);
      attempted := attempted + a;
      AllSucceedMembers(IndexFillSteps, fails);
      if buffer != 0 {
        indexBuffer := buffer;
      }
    }
  }

  /** The `OnExit` block of `CreateVertexArray` once a vertex array id is
      set: unbind it and, if that worked, delete the buffer ids that are not
      0. The vertex array keeps its own references to the buffers. */
  method DeleteTemporaries(dev: Device, fails: set<Step>, vertexBufferId: nat, indexBufferId: nat) returns (ok: bool)
    requires dev.Valid()
    modifies dev`live, dev`log
    ensures dev.Valid()
    ensures dev.log == old(dev.log) + [BindVertexArrayCmd(0)]
    ensures ok <==> && UnbindVertexArray !in fails
                    && (vertexBufferId != 0 ==> DeleteVertexBuffer !in fails)
                    && (indexBufferId != 0 ==> DeleteIndexBuffer !in fails)
    ensures UnbindVertexArray in fails ==> dev.live == old(dev.live)
    ensures UnbindVertexArray !in fails ==>
      dev.live == old(dev.live) - {Obj(BufferObject, vertexBufferId), Obj(BufferObject, indexBufferId)}
  {
    ok := true;
    dev.Issue(BindVertexArrayCmd(0));
    if UnbindVertexArray in fails {
      return false;
    }
    if vertexBufferId != 0 {
      dev.Destroy(BufferObject, vertexBufferId);
      if DeleteVertexBuffer in fails { ok := false; }
    }
    if indexBufferId != 0 {
      dev.Destroy(BufferObject, indexBufferId);
      if DeleteIndexBuffer in fails { ok := false; }
    }
  }

  /** The steps of the block that creates the vertex array. */
  const VertexArraySteps: seq<Step> := [GenVertexArray, BindVertexArray]

  /** The steps of the block that describes the vertex format. */
  const FormatSteps: seq<Step> := [PositionPointer, PositionEnable, ColorPointer, ColorEnable]

  /** The steps of the block that creates, binds and fills a buffer. */
  function BufferSteps(target: BufferTarget): seq<Step>
  {
    if target == ArrayBuffer then [GenVertexBuffer, BindVertexBuffer, VertexBufferData]
    else [GenIndexBuffer, BindIndexBuffer, IndexBufferData]
  }

  /** A block of `CreateVertexArray` that creates a buffer id, binds it to
      `target` and fills it with `data`. The id is 0 exactly when none was
      created. */
  method CreateBufferObject(dev: Device, fails: set<Step>, target: BufferTarget, data: seq<Byte>)
    returns (ok: bool, id: nat, ghost attempted: seq<Step>)
    requires dev.Valid()
    modifies dev`live, dev`next, dev`log
    ensures dev.Valid()
    ensures StopsAtFirstFailure(BufferSteps(target), fails, attempted)
    ensures ok <==> AllSucceed(BufferSteps(target), fails)
    ensures id != 0 <==> BufferSteps(target)[0] !in fails
    ensures id == 0 ==> dev.live == old(dev.live)
    ensures id != 0 ==>
      && Obj(BufferObject, id) !in old(dev.live) && dev.live == old(dev.live) + {Obj(BufferObject, id)}
    ensures ok ==> dev.log == old(dev.log) + [BindBufferCmd(target, id), BufferDataCmd(target, data)]
  {
    var steps := BufferSteps(target);
    attempted := [steps[0]];
    if steps[0] in fails {
      return false, 0, attempted;
    }
    id := dev.Create(BufferObject);
    attempted := attempted + [steps[1]];
    dev.Issue(BindBufferCmd(target, id));
    if steps[1] in fails {
      return false, id, attempted;
    }
    attempted := attempted + [steps[2]];
    dev.Issue(BufferDataCmd(target, data));
    ok := steps[2] !in fails;
  }

  /** The steps of the first two blocks of `CreateVertexArray` and of the
      last two. */
  const VertexUploadSteps: seq<Step> := VertexArraySteps + BufferSteps(ArrayBuffer)

  const IndexUploadSteps: seq<Step> := FormatSteps + BufferSteps(ElementArrayBuffer)

  /** The last two blocks of `CreateVertexArray`: the vertex format, and an
      index buffer filled with the index bytes. */
  method UploadIndices(dev: Device, fails: set<Step>, indexBytes: seq<Byte>)
    returns (ok: bool, indexBufferId: nat, ghost attempted: seq<Step>)
    requires dev.Valid()
    modifies dev`live, dev`next, dev`log
    ensures dev.Valid()
    ensures StopsAtFirstFailure(IndexUploadSteps, fails, attempted)
    ensures ok <==> AllSucceed(IndexUploadSteps, fails)
    ensures Obj(BufferObject, indexBufferId) !in old(dev.live)
    ensures old(dev.live) <= dev.live
    ensures dev.live - old(dev.live) <= {Obj(BufferObject, indexBufferId)}
    ensures ok ==> indexBufferId != 0 && dev.log == old(dev.log) + [
      VertexAttribPointerCmd(GlAttributes(0)[0], VertexSize), EnableVertexAttribArrayCmd(0),
      VertexAttribPointerCmd(GlAttributes(0)[1], VertexSize), EnableVertexAttribArrayCmd(1),
      BindBufferCmd(ElementArrayBuffer, indexBufferId), BufferDataCmd(ElementArrayBuffer, indexBytes)]
  {
    ghost var a: seq<Step>;
    indexBufferId := 0;
    ok, attempted := DescribeVertexFormat(dev, fails);
    if !ok {
      StopsEarly(FormatSteps, BufferSteps(ElementArrayBuffer), fails, attempted);
      return;
    }
    ok, indexBufferId, a := CreateBufferObject(dev, fails, ElementArrayBuffer, indexBytes);
    StopsAtFirstFailureThen(FormatSteps, BufferSteps(ElementArrayBuffer), fails, attempted, a);
    attempted := attempted + a;
  }

  /** The block of `CreateVertexArray` that describes the vertex format:
      position and colour pointers, each enabled, the offset advancing by
      the size of the position. */
  method DescribeVertexFormat(dev: Device, fails: set<Step>) returns (ok: bool, ghost attempted: seq<Step>)
    modifies dev`log
    ensures StopsAtFirstFailure(FormatSteps, fails, attempted)
    ensures ok <==> AllSucceed(FormatSteps, fails)
    ensures ok ==> dev.log == old(dev.log) + [
      VertexAttribPointerCmd(GlAttributes(0)[0], VertexSize), EnableVertexAttribArrayCmd(0),
      VertexAttribPointerCmd(GlAttributes(0)[1], VertexSize), EnableVertexAttribArrayCmd(1)]
  {
    AllSucceedMembers(FormatSteps, fails);
    var offset := 0;
    var position := Attribute(0, offset, 2, Float, false);
    attempted := [PositionPointer];
    dev.Issue(VertexAttribPointerCmd(position, VertexSize));
    if PositionPointer in fails {
      return false, attempted;
    }
    attempted := attempted + [PositionEnable];
    dev.Issue(EnableVertexAttribArrayCmd(position.location));
    if PositionEnable in fails {
      return false, attempted;
    }
    offset := offset + position.components * 4;
    var color := Attribute(1, offset, 4, UnsignedByte, true);
    attempted := attempted + [ColorPointer];
    dev.Issue(VertexAttribPointerCmd(color, VertexSize));
    if ColorPointer in fails {
      return false, attempted;
    }
    attempted := attempted + [ColorEnable];
    dev.Issue(EnableVertexAttribArrayCmd(color.location));
    ok := ColorEnable !in fails;
  }

  /** The steps of the block that creates and sets the vertex declaration. */
  const DeclarationSteps: seq<Step> := [CreateVertexDeclaration, SetVertexDeclaration]

  /** The steps that create, lock and unlock the vertex buffer. */
  const VertexFillSteps: seq<Step> := [CreateVertexBuffer, LockVertexBuffer, UnlockVertexBuffer]

  /** The steps that create, lock and unlock the index buffer. */
  const IndexFillSteps: seq<Step> := [CreateIndexBuffer, LockIndexBuffer, UnlockIndexBuffer]

  /** The vertex declaration block of `CreateVertexBuffer`: a declaration
      with the position and colour elements, created and set on the device.
      The result is 0 exactly when none was created. */
  method CreateDeclaration(dev: Device, fails: set<Step>) returns (ok: bool, declaration: nat, ghost attempted: seq<Step>)
    requires dev.Valid()
    modifies dev`live, dev`next, dev`log
    ensures dev.Valid()
    ensures StopsAtFirstFailure(DeclarationSteps, fails, attempted)
    ensures ok <==> AllSucceed(DeclarationSteps, fails)
    ensures declaration != 0 <==> CreateVertexDeclaration !in fails
    ensures declaration == 0 ==> dev.live == old(dev.live)
    ensures declaration != 0 ==>
      && Obj(VertexDeclarationObject, declaration) !in old(dev.live)
      && dev.live == old(dev.live) + {Obj(VertexDeclarationObject, declaration)}
    ensures ok ==> dev.log == old(dev.log) + [
      CreateVertexDeclarationCmd(D3DDeclaration()), SetVertexDeclarationCmd(declaration)]
  {
    AllSucceedMembers(DeclarationSteps, fails);
    attempted := [CreateVertexDeclaration];
    dev.Issue(CreateVertexDeclarationCmd(D3DDeclaration()));
    if CreateVertexDeclaration in fails {
      return false, 0, attempted;
    }
    declaration := dev.Create(VertexDeclarationObject);
    attempted := attempted + [SetVertexDeclaration];
    dev.Issue(SetVertexDeclarationCmd(declaration));
    ok := SetVertexDeclaration !in fails;
  }

  /** The vertex buffer block of `CreateVertexBuffer`: a buffer of `count`
      vertices created with `usage`, locked, filled with `data` and
      unlocked. The result is 0 exactly when none was created. */
  method FillVertexBuffer(dev: Device, fails: set<Step>, data: seq<Byte>, count: nat, usage: bv32)
    returns (ok: bool, buffer: nat, ghost attempted: seq<Step>)
    requires dev.Valid() && |data| == VertexSize * count
    modifies dev`live, dev`next, dev`log, dev`vertexContents
    ensures dev.Valid()
    ensures StopsAtFirstFailure(VertexFillSteps, fails, attempted)
    ensures ok <==> AllSucceed(VertexFillSteps, fails)
    ensures buffer != 0 <==> CreateVertexBuffer !in fails
    ensures buffer == 0 ==> dev.live == old(dev.live)
    ensures buffer != 0 ==>
      && Obj(VertexBufferObject, buffer) !in old(dev.live)
      && dev.live == old(dev.live) + {Obj(VertexBufferObject, buffer)}
    ensures buffer != 0 && LockVertexBuffer !in fails ==>
      dev.vertexContents == old(dev.vertexContents)[buffer := data]
    ensures !(buffer != 0 && LockVertexBuffer !in fails) ==> dev.vertexContents == old(dev.vertexContents)
    ensures ok ==> dev.log == old(dev.log) + [CreateVertexBufferCmd(VertexSize * count, usage)]
  {
    AllSucceedMembers(VertexFillSteps, fails);
    attempted := [CreateVertexBuffer];
    dev.Issue(CreateVertexBufferCmd(VertexSize * count, usage));
    if CreateVertexBuffer in fails {
      return false, 0, attempted;
    }
    buffer := dev.Create(VertexBufferObject);
    attempted := attempted + [LockVertexBuffer];
    if LockVertexBuffer in fails {
      return false, buffer, attempted;
    }
    var locked := new Byte[VertexSize * count];
    CopyVertices(locked, data, count);
    dev.CommitVertices(buffer, locked[..]);
    attempted := attempted + [UnlockVertexBuffer];
    ok := UnlockVertexBuffer !in fails;
  }

  /** The index buffer block of `CreateIndexBuffer`: a buffer of `count`
      32-bit indices created with `usage`, locked, filled with the indices
      `data` holds and unlocked. The result is 0 exactly when none was
      created. */
  method FillIndexBuffer(dev: Device, fails: set<Step>, data: seq<Byte>, count: nat, usage: bv32)
    returns (ok: bool, buffer: nat, ghost attempted: seq<Step>)
    requires dev.Valid() && |data| == 4 * count
    modifies dev`live, dev`next, dev`log, dev`indexContents
    ensures dev.Valid()
    ensures StopsAtFirstFailure(IndexFillSteps, fails, attempted)
    ensures ok <==> AllSucceed(IndexFillSteps, fails)
    ensures buffer != 0 <==> CreateIndexBuffer !in fails
    ensures buffer == 0 ==> dev.live == old(dev.live)
    ensures buffer != 0 ==>
      && Obj(IndexBufferObject, buffer) !in old(dev.live)
      && dev.live == old(dev.live) + {Obj(IndexBufferObject, buffer)}
    ensures buffer != 0 && LockIndexBuffer !in fails ==>
      dev.indexContents == old(dev.indexContents)[buffer := LeToU32s(data)]
    ensures !(buffer != 0 && LockIndexBuffer !in fails) ==> dev.indexContents == old(dev.indexContents)
    ensures ok ==> dev.log == old(dev.log) + [CreateIndexBufferCmd(4 * count, usage)]
  {
    AllSucceedMembers(IndexFillSteps, fails);
    attempted := [CreateIndexBuffer];
    dev.Issue(CreateIndexBufferCmd(4 * count, usage));
    if CreateIndexBuffer in fails {
      return false, 0, attempted;
    }
    buffer := dev.Create(IndexBufferObject);
    attempted := attempted + [LockIndexBuffer];
    if LockIndexBuffer in fails {
      return false, buffer, attempted;
    }
    var locked := new U32[count];
    CopyIndices(locked, data, count);
    dev.CommitIndices(buffer, locked[..]);
    attempted := attempted + [UnlockIndexBuffer];
    ok := UnlockIndexBuffer !in fails;
  }
}
