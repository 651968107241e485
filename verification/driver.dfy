/** What the engine sees of the graphics driver (the OpenGL context or the
    Direct3D 9 device), of the C heap and of open files: objects that exist,
    the commands issued in order, heap blocks and file handles. Which driver
    and system calls fail is not decided here: every fallible call is a
    `Step`, and the caller is told which steps fail. */
module Driver {
  import opened Bytes
  import opened VertexFormat

  /** The shader stage a step belongs to. */
  datatype Stage = VertexStage | FragmentStage

  /** Every fallible call the core makes, named after the call. A step in the
      failure set reports an error (`glGetError() != GL_NO_ERROR`,
      `FAILED(result)`, `FALSE` from Win32, a zero id, a short read). A few
      steps stand for an optional outcome instead, as their comments say. */
  datatype Step =
    // Mesh::LoadMesh; AllocateMeshBuffer fails when `malloc` returns NULL
    | OpenMeshFile | AllocateMeshBuffer | ReadMeshFile
    // Mesh::CreateVertexArray (OpenGL)
    | GenVertexArray | BindVertexArray | GenVertexBuffer | BindVertexBuffer | VertexBufferData
    | PositionPointer | PositionEnable | ColorPointer | ColorEnable
    | GenIndexBuffer | BindIndexBuffer | IndexBufferData
    | UnbindVertexArray | DeleteVertexBuffer | DeleteIndexBuffer
    // Mesh::CreateVertexBuffer / CreateIndexBuffer (Direct3D)
    | CreationParameters(forIndices: bool)
    | CreateVertexDeclaration | SetVertexDeclaration
    | CreateVertexBuffer | LockVertexBuffer | UnlockVertexBuffer
    | CreateIndexBuffer | LockIndexBuffer | UnlockIndexBuffer
    // Effect::CreateProgram (OpenGL); ProgramName fails when the id is 0
    | CreateProgram | ProgramName
    | LinkProgram | LinkInfoLength | LinkInfo | LinkStatusQuery | LinkRejected
    // Effect::Initialize / ShutDown (OpenGL); UniformLocation fails when the
    // location is -1, which Initialize does not treat as an error
    | UniformLocation | DeleteProgram
    // Effect::LoadAndAllocateShaderProgram (OpenGL)
    | OpenShaderFile(stage: Stage) | ShaderFileSize(stage: Stage) | AllocateShaderSource(stage: Stage)
    | ReadShaderFile(stage: Stage) | CloseShaderFile(stage: Stage)
    // Effect::LoadVertexShader / LoadFragmentShader (OpenGL); ShaderName
    // fails when the id is 0, CompileRejected when the status is GL_FALSE
    | ShaderCompiler(stage: Stage) | CreateShader(stage: Stage) | ShaderName(stage: Stage)
    | ShaderSource(stage: Stage) | CompileShader(stage: Stage) | CompileInfoLength(stage: Stage)
    | CompileInfo(stage: Stage) | CompileStatusQuery(stage: Stage) | CompileRejected(stage: Stage)
    | AttachShader(stage: Stage) | DeleteShader(stage: Stage)
    // Effect::LoadVertexShader / LoadFragmentShader (Direct3D);
    // CompilerMessages "fails" when the compiler hands back a message buffer,
    // ConstantTable when it hands back no constant table, PositionConstant
    // when the table has no "g_position_offset"
    | CompileFromFile(stage: Stage) | CompilerMessages(stage: Stage)
    | ConstantTable | PositionConstant | CreateShaderObject(stage: Stage)

  /** The steps of `order` that run when the first failing step ends the
      sequence: a prefix of `order`, every step of it but the last one
      succeeded, and the last one failed if the prefix is shorter than
      `order`. */
  ghost predicate StopsAtFirstFailure(order: seq<Step>, fails: set<Step>, attempted: seq<Step>)
  {
    && attempted <= order
    && (forall i :: 0 <= i < |attempted| - 1 ==> attempted[i] !in fails)
    && (|attempted| < |order| ==> attempted != [] && attempted[|attempted| - 1] in fails)
  }

  /** No step of `order` fails. */
  predicate AllSucceed(order: seq<Step>, fails: set<Step>)
  {
    forall i :: 0 <= i < |order| ==> order[i] !in fails
  }

  /** No step of `order` fails, stated over its members. */
  lemma AllSucceedMembers(order: seq<Step>, fails: set<Step>)
    ensures AllSucceed(order, fails) <==> forall s :: s in order ==> s !in fails
  {
  }

  /** The steps that run are determined by the order and the failures: two
      runs of the same sequence against the same failures agree. */
  lemma StopsAtFirstFailureUnique(order: seq<Step>, fails: set<Step>, a: seq<Step>, b: seq<Step>)
    requires StopsAtFirstFailure(order, fails, a) && StopsAtFirstFailure(order, fails, b)
    ensures a == b
  {
    if |a| < |b| {
      assert false;
    } else if |b| < |a| {
      assert false;
    }
  }

  /** When nothing fails, every step runs. */
  lemma AllSucceedRunsAll(order: seq<Step>, fails: set<Step>, attempted: seq<Step>)
    requires StopsAtFirstFailure(order, fails, attempted) && AllSucceed(order, fails)
    ensures attempted == order
  {
    if |attempted| < |order| {
      assert false;
    }
  }

  /** A sequence of steps followed by another, when the first runs to the
      end: the second starts. */
  lemma StopsAtFirstFailureThen(o1: seq<Step>, o2: seq<Step>, fails: set<Step>, a1: seq<Step>, a2: seq<Step>)
    requires StopsAtFirstFailure(o1, fails, a1) && AllSucceed(o1, fails)
    requires StopsAtFirstFailure(o2, fails, a2)
    ensures StopsAtFirstFailure(o1 + o2, fails, a1 + a2)
    ensures AllSucceed(o1 + o2, fails) <==> AllSucceed(o2, fails)
  {
    AllSucceedRunsAll(o1, fails, a1);
    var a := a1 + a2;
    forall i | 0 <= i < |a| - 1 ensures a[i] !in fails {
      if i < |a1| {
        assert a[i] == o1[i];
      } else {
        assert a[i] == a2[i - |a1|];
      }
    }
    assert a <= o1 + o2 by {
      assert (a1 + o2)[..|a|] == a1 + o2[..|a2|];
    }
    if !AllSucceed(o2, fails) {
      var k :| 0 <= k < |o2| && o2[k] in fails;
      assert (o1 + o2)[|o1| + k] == o2[k];
    }
  }

  /** When the first sequence stops early, the second never runs. */
  lemma StopsEarly(o1: seq<Step>, o2: seq<Step>, fails: set<Step>, a1: seq<Step>)
    requires StopsAtFirstFailure(o1, fails, a1) && !AllSucceed(o1, fails)
    ensures StopsAtFirstFailure(o1 + o2, fails, a1)
    ensures !AllSucceed(o1 + o2, fails)
  {
    var k :| 0 <= k < |o1| && o1[k] in fails;
    assert (o1 + o2)[k] == o1[k];
    if |a1| == |o1| {
      assert a1 == o1;
      assert k == |a1| - 1;
    }
    assert a1 <= o1 + o2 by {
      assert (o1 + o2)[..|a1|] == o1[..|a1|];
    }
  }

  /** The kinds of driver object. */
  datatype Kind =
    | VertexArrayObject | BufferObject | ProgramObject | ShaderObject
    | VertexDeclarationObject | VertexBufferObject | IndexBufferObject
    | VertexShaderObject | PixelShaderObject | ConstantTableObject | BlobObject

  /** A driver object: OpenGL names are per kind, Direct3D interfaces are
      pointers; either way a name is never 0, which stands for "none". */
  datatype Obj = Obj(kind: Kind, name: nat)

  datatype BufferTarget = ArrayBuffer | ElementArrayBuffer

  /** The commands the driver receives, in the order it receives them. */
  datatype Command =
    // OpenGL
    | BindVertexArrayCmd(array: nat)
    | BindBufferCmd(target: BufferTarget, buffer: nat)
    | BufferDataCmd(target: BufferTarget, data: seq<Byte>)
    | VertexAttribPointerCmd(attribute: Attribute, stride: nat)
    | EnableVertexAttribArrayCmd(location: nat)
    | DrawElementsCmd(indexCount: nat)
    | UseProgramCmd(program: nat)
    | Uniform2Cmd(uniform: int, values: seq<Float32>)
    | ShaderSourceCmd(shader: nat, pieces: seq<string>, text: seq<Byte>)
    | CompileShaderCmd(shader: nat)
    | AttachShaderCmd(program: nat, shader: nat)
    | LinkProgramCmd(program: nat)
    // Direct3D
    | CreateVertexDeclarationCmd(elements: seq<Attribute>)
    | CreateVertexBufferCmd(size: nat, usage: bv32)
    | CreateIndexBufferCmd(size: nat, usage: bv32)
    | SetVertexDeclarationCmd(declaration: nat)
    | SetStreamSourceCmd(stream: nat, buffer: nat, offset: nat, stride: nat)
    | SetIndicesCmd(buffer: nat)
    | DrawIndexedPrimitiveCmd(baseVertex: nat, minIndex: nat, vertexCount: nat, startIndex: nat, primitiveCount: nat)
    | SetVertexShaderCmd(shader: nat)
    | SetPixelShaderCmd(shader: nat)
    | SetFloatArrayCmd(handle: nat, values: seq<Float32>)
    | CompileFromFileCmd(path: string, defines: seq<(string, string)>, entry: string, profile: string)

  /** Freeing the block a load may have added, at `address` (0 when it
      added none), leaves the blocks held before the load. */
  lemma FreeRestores(before: map<nat, seq<Byte>>, address: nat, contents: seq<Byte>)
    requires address !in before
    ensures (if address == 0 then before else before[address := contents]) - {address} == before
  {
  }

  class Device {
    /** Driver objects that exist. */
    var live: set<Obj>
    /** Source of fresh names. */
    var next: nat
    /** Commands issued so far. */
    var log: seq<Command>
    /** Heap blocks from `malloc` that have not been freed, by address. */
    var blocks: map<nat, seq<Byte>>
    var nextBlock: nat
    /** Addresses passed to `free`, in order. */
    var freed: seq<nat>
    /** File handles that are open. */
    var openFiles: set<nat>
    /** Whether `SetDirect3dDevice` has given the classes a device. */
    var attached: bool
    /** `D3DDEVICE_CREATION_PARAMETERS::BehaviorFlags` of that device. */
    var behaviorFlags: bv32
    /** Contents of Direct3D vertex and index buffers, as last unlocked. */
    var vertexContents: map<nat, seq<Byte>>
    var indexContents: map<nat, seq<U32>>
    /** Operations made through a pointer to a deleted object or through a
        NULL pointer, calls and `delete`s alike; the C++ leaves them
        undefined. */
    ghost var danglingUses: nat

    ghost predicate Valid()
      reads this`next, this`nextBlock, this`live, this`blocks, this`openFiles
    {
      && next > 0 && nextBlock > 0
      && (forall o :: o in live ==> 0 < o.name < next)
      && (forall b :: b in blocks ==> 0 < b < nextBlock)
      && (forall f :: f in openFiles ==> 0 < f < next)
    }

    constructor (flags: bv32)
      ensures Valid() && live == {} && log == [] && blocks == map[] && freed == []
      ensures openFiles == {} && !attached && behaviorFlags == flags && danglingUses == 0
    {
      live, next, log := {}, 1, [];
      blocks, nextBlock, freed := map[], 1, [];
      openFiles, attached, behaviorFlags := {}, false, flags;
      vertexContents, indexContents := map[], map[];
      danglingUses := 0;
    }

    /** `SetDirect3dDevice` / `ReleaseDirect3dDevice`. */
    method Attach(on: bool)
      modifies this`attached
      ensures attached == on
    {
      attached := on;
    }

    /** A new object of `kind`, with a name never used before. */
    method Create(kind: Kind) returns (name: nat)
      requires Valid()
      modifies this`live, this`next
      ensures Valid()
      ensures name > 0 && Obj(kind, name) !in old(live)
      ensures live == old(live) + {Obj(kind, name)}
      ensures forall o :: o in old(live) ==> o.name < name
    {
      name := next;
      live := live + {Obj(kind, name)};
      next := next + 1;
    }

    /** `glDelete*` / `Release`: the object no longer exists. Deleting a name
        that is not an object does nothing, as in OpenGL. */
    method Destroy(kind: Kind, name: nat)
      requires Valid()
      modifies this`live
      ensures Valid()
      ensures live == old(live) - {Obj(kind, name)}
    {
      live := live - {Obj(kind, name)};
    }

    method Issue(c: Command)
      modifies this`log
      ensures log == old(log) + [c]
    {
      log := log + [c];
    }

    /** `malloc`, filled with `data`. */
    method Allocate(data: seq<Byte>) returns (address: nat)
      requires Valid()
      modifies this`blocks, this`nextBlock
      ensures Valid()
      ensures address > 0 && address !in old(blocks)
      ensures blocks == old(blocks)[address := data]
    {
      address := nextBlock;
      blocks := blocks[address := data];
      nextBlock := nextBlock + 1;
    }

    /** `free`: a null address is ignored. */
    method Free(address: nat)
      requires Valid()
      modifies this`blocks, this`freed
      ensures Valid()
      ensures blocks == old(blocks) - {address}
      ensures freed == old(freed) + (if address == 0 then [] else [address])
    {
      if address != 0 {
        blocks := blocks - {address};
        freed := freed + [address];
      }
    }

    method OpenFile() returns (handle: nat)
      requires Valid()
      modifies this`openFiles, this`next
      ensures Valid()
      ensures handle > 0 && handle !in old(openFiles)
      ensures openFiles == old(openFiles) + {handle}
    {
      handle := next;
      openFiles := openFiles + {handle};
      next := next + 1;
    }

    method CloseFile(handle: nat)
      requires Valid()
      modifies this`openFiles
      ensures Valid()
      ensures openFiles == old(openFiles) - {handle}
    {
      openFiles := openFiles - {handle};
    }

    method CommitVertices(buffer: nat, data: seq<Byte>)
      modifies this`vertexContents
      ensures vertexContents == old(vertexContents)[buffer := data]
    {
      vertexContents := vertexContents[buffer := data];
    }

    method CommitIndices(buffer: nat, data: seq<U32>)
      modifies this`indexContents
      ensures indexContents == old(indexContents)[buffer := data]
    {
      indexContents := indexContents[buffer := data];
    }

    /** Records a call or `delete` through a pointer to a deleted object. */
    ghost method UseDangling(count: nat)
      modifies this`danglingUses
      ensures danglingUses == old(danglingUses) + count
    {
      danglingUses := danglingUses + count;
    }
  }
}
