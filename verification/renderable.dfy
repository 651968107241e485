/** `Renderable`: a mesh and an effect drawn together at a position offset.
    It owns both and releases them in `ShutDown`, which deletes them without
    forgetting the pointers. */
module Renderables {
  import opened Bytes
  import opened VertexFormat
  import opened MeshRecord
  import opened Driver
  import opened MeshResource
  import opened EffectResource

  /** `Math::cVector`, as far as the renderable uses it. */
  datatype Vector = Vector(x: Float32, y: Float32)

  /** `LoadMesh` hands back a buffer for `file`: it opens, its buffer is
      allocated, it reads, and its header agrees with its length, which is
      when `Parse` accepts it. */
  predicate Loads(file: seq<Byte>, fails: set<Step>)
  {
    && OpenMeshFile !in fails && AllocateMeshBuffer !in fails && ReadMeshFile !in fails
    && |file| >= HeaderSize && ViewsInBounds(file)
  }

  /** What the views of a new mesh show after `LoadMesh` on `file`: the
      record's vertex and index segments when the file loads, nothing when
      the result is NULL. `UploadedDecodes` shows that these segments decode
      to the mesh `Parse` reads from the file. */
  function Uploaded(file: seq<Byte>, fails: set<Step>): (segments: (seq<Byte>, seq<Byte>))
    ensures Loads(file, fails) ==> Segments(file, segments.0, segments.1)
    ensures !Loads(file, fails) ==> segments == ([], [])
    ensures |segments.1| % 4 == 0
  {
    if Loads(file, fails) then
      var (vc, ic) := HeaderCounts(file);
      Aligned(vc, ic);
      (file[HeaderSize .. HeaderSize + VertexSize * vc], file[HeaderSize + VertexSize * vc .. RecordSize(vc, ic)])
    else
      ([], [])
  }

  /** The file loads exactly when it opens, its buffer is allocated, it
      reads, and the engine's loader accepts it; what the views then show
      decodes to the mesh `Parse` makes of the file. */
  lemma UploadedDecodes(backend: Backend, file: seq<Byte>, fails: set<Step>)
    ensures Loads(file, fails) <==>
      OpenMeshFile !in fails && AllocateMeshBuffer !in fails && ReadMeshFile !in fails && Parse(backend, file).Some?
    ensures Loads(file, fails) ==>
      && IsChannelOrder(EngineChannels(backend)) && |Uploaded(file, fails).0| % VertexSize == 0
      && Parse(backend, file) == Some(MeshData(DecodeVertices(EngineChannels(backend), Uploaded(file, fails).0),
                                               LeToU32s(Uploaded(file, fails).1)))
  {
    if Loads(file, fails) {
      var (vertexBytes, indexBytes) := Uploaded(file, fails);
      SegmentsParse(backend, file, vertexBytes, indexBytes);
    }
  }

  /** Everything `Renderable::Initialize` needs to go right: the mesh upload
      and its cleanup, then the effect. */
  predicate InitializeSucceeds(backend: Backend, fails: set<Step>)
  {
    AllSucceed(InitializeOrder(backend) + CleanupOrder(backend), fails) && AllSucceed(EffectOrder(backend), fails)
  }

  /** The commands a successful OpenGL `Renderable::Initialize` issues: the
      mesh upload, then the two shaders and the link of the program. */
  ghost predicate GlInitializeLog(before: seq<Command>, after: seq<Command>, vertexArray: nat, program: nat,
                                  files: ShaderFiles, vertexBytes: seq<Byte>, indexBytes: seq<Byte>)
  {
    exists vb, ib, vs, fs :: after == before
      + GlUploadLog(vertexArray, vb, ib, vertexBytes, indexBytes)
      + ShaderLog(program, vs, files.vertex + [0]) + ShaderLog(program, fs, files.fragment + [0])
      + [LinkProgramCmd(program)]
  }

  class Renderable {
    const backend: Backend
    const mesh: Mesh
    const effect: Effect
    var offset: Vector
    /** Whether the renderable has been `delete`d. */
    ghost var deleted: bool

    /** The mesh and the effect are made for the renderable's backend. */
    predicate Valid()
    {
      mesh.backend == backend && effect.backend == backend
    }

    /** `Renderable()`: a new mesh and a new effect. `cVector`'s default
        constructor is not part of this model, so the offset is left
        unknown. */
    constructor (backend: Backend)
      ensures this.backend == backend && Valid() && !deleted
      ensures fresh(mesh) && fresh(effect)
      ensures mesh.Unloaded()
      ensures mesh.vertexDeclaration == 0 && mesh.vertexBuffer == 0 && mesh.indexBuffer == 0 && !mesh.deleted
      ensures effect.programId == 0 && effect.positionOffset == -1
      ensures effect.vertexShader == 0 && effect.fragmentShader == 0 && !effect.deleted
    {
      this.backend := backend;
      mesh := new Mesh(backend);
      effect := new Effect(backend);
      offset := *;
      deleted := false;
    }

    /** `Initialize`: `LoadMesh` on `file`, then `Mesh::Initialize` on what
      it returned, NULL included, then `Effect::Initialize`. The first of
      the two to fail shuts the renderable down, and the result is false.
      The file's heap block is gone afterwards whatever happened. What the
      mesh uploads is `Uploaded(file, fails)`: the record's segments, which
      `Parse` decodes, or nothing. */
    method Initialize(dev: Device, fails: set<Step>, file: seq<Byte>, files: ShaderFiles, position: nat)
      returns (ok: bool)
      requires Valid() && dev.Valid() && mesh.Unloaded()
      requires !mesh.deleted && !effect.deleted && effect.Held() == {}
      requires backend == D3D ==> dev.attached
      modifies mesh, effect, dev
      ensures dev.Valid()
      ensures ok <==> InitializeSucceeds(backend, fails)
      ensures dev.blocks == old(dev.blocks)
      ensures !ok ==> mesh.deleted && effect.deleted && mesh.Held() == {} && effect.Held() == {}
      ensures dev.danglingUses == old(dev.danglingUses) + (if ReadsThroughNull(fails) then 1 else 0)
      ensures ok ==> !mesh.deleted && !effect.deleted && effect.Held() != {}
      ensures ok && backend == D3D ==> effect.vertexShader != 0 && effect.fragmentShader != 0
      ensures ok ==>
        && old(dev.live) !! (mesh.Held() + effect.Held())
        && old(dev.live) + mesh.Held() + effect.Held() <= dev.live
        && dev.live <= old(dev.live) + mesh.Held() + effect.Held() + effect.Table()
      ensures ok && backend == GL ==> var (vertexBytes, indexBytes) := Uploaded(file, fails);
        GlInitializeLog(old(dev.log), dev.log, mesh.vertexArrayId, effect.programId, files, vertexBytes, indexBytes)
      ensures ok && backend == D3D ==> var (vertexBytes, indexBytes) := Uploaded(file, fails);
        && dev.vertexContents == old(dev.vertexContents)[mesh.vertexBuffer := vertexBytes]
        && dev.indexContents == old(dev.indexContents)[mesh.indexBuffer := LeToU32s(indexBytes)]
    {
      ok := InitializeMesh(dev, fails, file);
      if !ok {
        return;
      }
      ghost var log1 := dev.log;
      ok := InitializeEffect(dev, fails, files, position);
      if ok && backend == GL {
        ghost var (vertexBytes, indexBytes) := Uploaded(file, fails);
        ghost var vb, ib :| log1 == old(dev.log) + GlUploadLog(mesh.vertexArrayId, vb, ib, vertexBytes, indexBytes);
        ghost var vs, fs :| dev.log == log1
          + ShaderLog(effect.programId, vs, files.vertex + [0]) + ShaderLog(effect.programId, fs, files.fragment + [0])
          + [LinkProgramCmd(effect.programId)];
        assert dev.log == old(dev.log) + GlUploadLog(mesh.vertexArrayId, vb, ib, vertexBytes, indexBytes)
          + ShaderLog(effect.programId, vs, files.vertex + [0]) + ShaderLog(effect.programId, fs, files.fragment + [0])
          + [LinkProgramCmd(effect.programId)];
      }
    }

    /** The effect half of `Initialize`, once the mesh is up: the effect's
        `Initialize`, and the renderable's `ShutDown` when that fails. */
    method InitializeEffect(dev: Device, fails: set<Step>, files: ShaderFiles, position: nat) returns (ok: bool)
      requires Valid() && dev.Valid() && !mesh.deleted && !effect.deleted && effect.Held() == {}
      requires backend == D3D ==> dev.attached
      modifies effect`programId, effect`positionOffset, effect`vertexShader, effect`fragmentShader
      modifies effect`constantTable, effect`positionHandle, effect`tableSet, effect`deleted
      modifies mesh`vertexArrayId, mesh`vertexDeclaration, mesh`vertexBuffer, mesh`indexBuffer, mesh`deleted
      modifies dev`live, dev`next, dev`log, dev`blocks, dev`nextBlock, dev`freed, dev`openFiles, dev`danglingUses
      ensures dev.Valid()
      ensures ok <==> AllSucceed(EffectOrder(backend), fails)
      ensures dev.blocks == old(dev.blocks) && dev.openFiles == old(dev.openFiles)
      ensures ok ==> dev.vertexContents == old(dev.vertexContents) && dev.indexContents == old(dev.indexContents)
      ensures dev.danglingUses == old(dev.danglingUses)
      ensures !ok ==> mesh.deleted && effect.deleted && mesh.Held() == {} && effect.Held() == {}
      ensures ok ==> !mesh.deleted && !effect.deleted && effect.Held() != {} && unchanged(mesh)
      ensures ok && backend == D3D ==> effect.vertexShader != 0 && effect.fragmentShader != 0
      ensures ok ==>
        && old(dev.live) !! effect.Held()
        && old(dev.live) + effect.Held() <= dev.live <= old(dev.live) + effect.Held() + effect.Table()
      ensures ok && backend == GL ==> exists vs, fs :: (dev.log == old(dev.log)
        + ShaderLog(effect.programId, vs, files.vertex + [0]) + ShaderLog(effect.programId, fs, files.fragment + [0])
        + [LinkProgramCmd(effect.programId)])
    {
      ok := StartEffect(dev, fails, files, position);
      if !ok {
        ShutDown(dev);
      }
    }

    /** `Effect::Initialize`, which touches neither the mesh nor the
        buffers' contents. */
    method StartEffect(dev: Device, fails: set<Step>, files: ShaderFiles, position: nat) returns (ok: bool)
      requires dev.Valid()
      requires backend == D3D ==> dev.attached
      requires effect.backend == backend
      modifies effect`programId, effect`positionOffset, effect`vertexShader, effect`fragmentShader
      modifies effect`constantTable, effect`positionHandle, effect`tableSet
      modifies dev`live, dev`next, dev`log, dev`blocks, dev`nextBlock, dev`freed, dev`openFiles
      ensures dev.Valid()
      ensures ok <==> AllSucceed(EffectOrder(backend), fails)
      ensures dev.blocks == old(dev.blocks) && dev.openFiles == old(dev.openFiles)
      ensures dev.vertexContents == old(dev.vertexContents) && dev.indexContents == old(dev.indexContents)
      ensures !ok ==> effect.Held() == {}
      ensures ok ==> effect.Held() != {} && old(dev.live) !! effect.Held() && effect.Held() <= dev.live
      ensures ok && backend == D3D ==> effect.vertexShader != 0 && effect.fragmentShader != 0
      ensures old(dev.live) - old(effect.Held()) <= dev.live
      ensures dev.live <= old(dev.live) + effect.Held() + effect.Table()
      ensures ok && backend == GL ==> exists vs, fs :: (dev.log == old(dev.log)
        + ShaderLog(effect.programId, vs, files.vertex + [0]) + ShaderLog(effect.programId, fs, files.fragment + [0])
        + [LinkProgramCmd(effect.programId)])
    {
      ghost var attempted;
      ok, attempted := effect.Initialize(dev, fails, files, position);
    }

    /** The mesh half of `Initialize`: load the file and upload the mesh,
      and shut the renderable down when that fails. */
    method InitializeMesh(dev: Device, fails: set<Step>, file: seq<Byte>) returns (ok: bool)
      requires Valid() && dev.Valid() && mesh.Unloaded()
      requires !mesh.deleted && !effect.deleted && effect.Held() == {}
      requires backend == D3D ==> dev.attached
      modifies mesh`vertexCount, mesh`indexCount, mesh`vertexData, mesh`indexData
      modifies mesh`vertexArrayId, mesh`vertexDeclaration, mesh`vertexBuffer, mesh`indexBuffer, mesh`deleted
      modifies effect`programId, effect`vertexShader, effect`fragmentShader, effect`deleted
      modifies dev`live, dev`next, dev`log, dev`vertexContents, dev`indexContents
      modifies dev`blocks, dev`nextBlock, dev`freed, dev`openFiles, dev`danglingUses
      ensures dev.Valid()
      ensures ok <==> AllSucceed(InitializeOrder(backend) + CleanupOrder(backend), fails)
      ensures dev.blocks == old(dev.blocks)
      ensures dev.danglingUses == old(dev.danglingUses) + (if ReadsThroughNull(fails) then 1 else 0)
      ensures !ok ==> mesh.deleted && effect.deleted && mesh.Held() == {} && effect.Held() == {}
      ensures ok ==> !mesh.deleted && !effect.deleted && effect.Held() == {}
      ensures ok ==> old(dev.live) !! mesh.Held() && dev.live == old(dev.live) + mesh.Held()
      ensures ok && backend == GL ==> var (vertexBytes, indexBytes) := Uploaded(file, fails);
        exists vb, ib :: dev.log == old(dev.log) + GlUploadLog(mesh.vertexArrayId, vb, ib, vertexBytes, indexBytes)
      ensures ok && backend == D3D ==> var (vertexBytes, indexBytes) := Uploaded(file, fails);
        && dev.vertexContents == old(dev.vertexContents)[mesh.vertexBuffer := vertexBytes]
        && dev.indexContents == old(dev.indexContents)[mesh.indexBuffer := LeToU32s(indexBytes)]
    {
      ok := UploadMesh(dev, fails, file);
      if !ok {
        ShutDown(dev);
      }
    }

    /** `LoadMesh` and `Mesh::Initialize`, which frees the file's block. */
    method UploadMesh(dev: Device, fails: set<Step>, file: seq<Byte>) returns (ok: bool)
      requires Valid() && dev.Valid() && mesh.Unloaded()
      requires backend == D3D ==> dev.attached
      modifies mesh`vertexCount, mesh`indexCount, mesh`vertexData, mesh`indexData
      modifies mesh`vertexArrayId, mesh`vertexDeclaration, mesh`vertexBuffer, mesh`indexBuffer
      modifies dev`live, dev`next, dev`log, dev`vertexContents, dev`indexContents
      modifies dev`blocks, dev`nextBlock, dev`freed, dev`openFiles, dev`danglingUses
      ensures dev.Valid()
      ensures ok <==> AllSucceed(InitializeOrder(backend) + CleanupOrder(backend), fails)
      ensures dev.blocks == old(dev.blocks)
      ensures dev.danglingUses == old(dev.danglingUses) + (if ReadsThroughNull(fails) then 1 else 0)
      ensures !ok ==> mesh.Held() == {}
      ensures ok ==> old(dev.live) !! mesh.Held() && dev.live == old(dev.live) + mesh.Held()
      ensures ok && backend == GL ==> var (vertexBytes, indexBytes) := Uploaded(file, fails);
        exists vb, ib :: dev.log == old(dev.log) + GlUploadLog(mesh.vertexArrayId, vb, ib, vertexBytes, indexBytes)
      ensures ok && backend == D3D ==> var (vertexBytes, indexBytes) := Uploaded(file, fails);
        && dev.vertexContents == old(dev.vertexContents)[mesh.vertexBuffer := vertexBytes]
        && dev.indexContents == old(dev.indexContents)[mesh.indexBuffer := LeToU32s(indexBytes)]
    {
      var buffer := LoadFile(dev, fails, file);
      ghost var attempted;
      ok, attempted := mesh.Initialize(dev, buffer, fails);
      FreeRestores(old(dev.blocks), buffer, file);
    }

    /** `LoadMesh` on `file`: the views then show `Uploaded(file, fails)`,
        and the block holding the file is the one new block. */
    method LoadFile(dev: Device, fails: set<Step>, file: seq<Byte>) returns (buffer: nat)
      requires Valid() && dev.Valid() && mesh.Unloaded()
      modifies mesh`vertexCount, mesh`indexCount, mesh`vertexData, mesh`indexData
      modifies dev`blocks, dev`nextBlock, dev`freed, dev`openFiles, dev`next, dev`danglingUses
      ensures dev.Valid() && mesh.ViewsReadable(dev)
      ensures dev.danglingUses == old(dev.danglingUses) + (if ReadsThroughNull(fails) then 1 else 0)
      ensures buffer !in old(dev.blocks)
      ensures dev.blocks == if buffer == 0 then old(dev.blocks) else old(dev.blocks)[buffer := file]
      ensures mesh.VertexBytes(dev) == Uploaded(file, fails).0
      ensures mesh.IndexBytes(dev) == Uploaded(file, fails).1
    {
      buffer := mesh.LoadMesh(dev, file, fails);
    }

    /** `Draw`: bind the effect, set the offset uniform from `Offset.x` and
        `Offset.y`, draw the mesh, in that order. Nothing stops a renderable
        whose `Initialize` failed, and so deleted both objects, from being
        drawn: the two calls on a deleted effect and the one on a deleted
        mesh are each counted as a use of an invalid pointer, and modelled
        as if the objects still held what they held last. */
    method Draw(dev: Device)
      requires Valid()
      requires backend == D3D ==> dev.attached
      modifies dev`log, dev`danglingUses
      ensures dev.log == old(dev.log) + effect.BindLog() + effect.UniformLog([offset.x, offset.y]) + mesh.DrawLog()
      ensures dev.danglingUses == old(dev.danglingUses)
        + (if effect.deleted then 2 else 0) + (if mesh.deleted then 1 else 0)
        + (if effect.TableInvalid() then 1 else 0)
    {
      if effect.deleted {
        dev.UseDangling(2);
      }
      if mesh.deleted {
        dev.UseDangling(1);
      }
      effect.Bind(dev);
      var values := [offset.x, offset.y];
      effect.SetDrawCallUniforms(dev, values);
      mesh.Draw(dev);
    }

    /** `SetPositionOffset`: the offset changes, nothing else does. */
    method SetPositionOffset(v: Vector)
      modifies this`offset
      ensures offset == v
    {
      offset := v;
    }

    /** `ShutDown`: shut down and delete the effect, then the mesh. The
        pointers are kept, so a second call shuts down and deletes objects
        that are already gone: two undefined operations for each, modelled
        as if the deleted objects still held what they held last. */
    method ShutDown(dev: Device)
      requires Valid() && dev.Valid()
      modifies effect`programId, effect`vertexShader, effect`fragmentShader, effect`deleted
      modifies mesh`vertexArrayId, mesh`vertexDeclaration, mesh`vertexBuffer, mesh`indexBuffer, mesh`deleted
      modifies dev`live, dev`log, dev`danglingUses
      ensures dev.Valid() && effect.deleted && mesh.deleted
      ensures dev.danglingUses ==
        old(dev.danglingUses) + (if old(effect.deleted) then 2 else 0) + (if old(mesh.deleted) then 2 else 0)
      ensures effect.Held() == {}
      ensures backend == GL || dev.attached ==> mesh.Held() == {}
      ensures dev.live == old(dev.live) - old(effect.Held())
        - (if backend == D3D && !dev.attached then {} else old(mesh.Held()))
      ensures dev.log == old(dev.log) +
        (if backend == D3D && dev.attached && old(mesh.vertexDeclaration) != 0 then [SetVertexDeclarationCmd(0)] else [])
    {
      ShutDownEffect(dev);
      ShutDownMesh(dev);
    }

    /** The effect half of `ShutDown`. */
    method ShutDownEffect(dev: Device)
      requires dev.Valid()
      modifies effect`programId, effect`vertexShader, effect`fragmentShader, effect`deleted
      modifies dev`live, dev`danglingUses
      ensures dev.Valid() && effect.deleted && effect.Held() == {}
      ensures dev.danglingUses == old(dev.danglingUses) + (if old(effect.deleted) then 2 else 0)
      ensures dev.live == old(dev.live) - old(effect.Held())
    {
      if effect.deleted {
        dev.UseDangling(2);
      }
      effect.ShutDown(dev);
      effect.deleted := true;
    }

    /** The mesh half of `ShutDown`. */
    method ShutDownMesh(dev: Device)
      requires Valid() && dev.Valid()
      modifies mesh`vertexArrayId, mesh`vertexDeclaration, mesh`vertexBuffer, mesh`indexBuffer, mesh`deleted
      modifies dev`live, dev`log, dev`danglingUses
      ensures dev.Valid() && mesh.deleted
      ensures dev.danglingUses == old(dev.danglingUses) + (if old(mesh.deleted) then 2 else 0)
      ensures backend == GL || dev.attached ==> mesh.Held() == {}
      ensures dev.live == old(dev.live) - (if backend == D3D && !dev.attached then {} else old(mesh.Held()))
      ensures dev.log == old(dev.log) +
        (if backend == D3D && dev.attached && old(mesh.vertexDeclaration) != 0 then [SetVertexDeclarationCmd(0)] else [])
    {
      if mesh.deleted {
        dev.UseDangling(2);
      }
      var shut := mesh.ShutDown(dev);
      mesh.deleted := true;
    }
  }
}
