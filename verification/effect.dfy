/** `Graphics::Effect`: the shader pair a renderable draws with. Under OpenGL
    it is one program object linked from a vertex shader and a fragment
    shader compiled from source files at run time; under Direct3D it is a
    vertex shader and a pixel shader compiled by D3DX, plus the vertex
    shader's constant table and the handle of its position offset. */
module EffectResource {
  import opened Bytes
  import opened VertexFormat
  import opened Driver

  /** The contents of `data/vertex.shader` and `data/fragment.shader`. */
  datatype ShaderFiles = ShaderFiles(vertex: seq<Byte>, fragment: seq<Byte>)

  function SourceOf(files: ShaderFiles, stage: Stage): seq<Byte>
  {
    if stage == VertexStage then files.vertex else files.fragment
  }

  function ShaderPath(stage: Stage): string
  {
    if stage == VertexStage then "data/vertex.shader" else "data/fragment.shader"
  }

  /** The two strings the OpenGL loaders put in front of the file's text. */
  const GlShaderPrefix: seq<string> :=
    ["#version 330 // The version of GLSL to use must come first\n", "#define EAE6320_PLATFORM_GL\n"]

  /** What the Direct3D loaders hand to `D3DXCompileShaderFromFile`. */
  const D3DDefines: seq<(string, string)> := [("EAE6320_PLATFORM_D3D", "1")]

  const EntryPoint: string := "main"

  function ShaderProfile(stage: Stage): string
  {
    if stage == VertexStage then "vs_3_0" else "ps_3_0"
  }

  /** The fallible steps of `LoadAndAllocateShaderProgram`: open, size,
      allocate, read, and the close at `OnExit` when all of those worked. */
  function SourceFileSteps(stage: Stage): seq<Step>
  {
    [OpenShaderFile(stage)] + ReadSteps(stage) + [CloseShaderFile(stage)]
  }

  /** The steps between opening and closing the shader file. */
  function ReadSteps(stage: Stage): seq<Step>
  {
    [ShaderFileSize(stage), AllocateShaderSource(stage), ReadShaderFile(stage)]
  }

  /** The steps that make a shader id and give it its source. */
  function NewShaderSteps(stage: Stage): seq<Step>
  {
    [CreateShader(stage), ShaderName(stage), ShaderSource(stage)]
  }

  /** The steps that compile the source and check the result. */
  function CompileSteps(stage: Stage): seq<Step>
  {
    [CompileShader(stage), CompileInfoLength(stage), CompileInfo(stage), CompileStatusQuery(stage),
     CompileRejected(stage)]
  }

  /** The steps of the OpenGL `LoadVertexShader` / `LoadFragmentShader`. */
  function ShaderOrder(stage: Stage): seq<Step>
  {
    [ShaderCompiler(stage)] + SourceFileSteps(stage) + NewShaderSteps(stage) + CompileSteps(stage)
      + [AttachShader(stage)]
  }

  const ProgramSteps: seq<Step> := [Step.CreateProgram, ProgramName]

  const LinkSteps: seq<Step> := [LinkProgram, LinkInfoLength, LinkInfo, LinkStatusQuery, LinkRejected]

  /** The steps of `CreateProgram`: a program id, the vertex shader, the
      fragment shader, the link. */
  function ProgramOrder(): seq<Step>
  {
    ProgramSteps + ShaderOrder(VertexStage) + ShaderOrder(FragmentStage) + LinkSteps
  }

  /** The steps of a Direct3D shader load: compile, then create the object. */
  function D3DShaderOrder(stage: Stage): seq<Step>
  {
    [CompileFromFile(stage), CreateShaderObject(stage)]
  }

  /** The steps of `Initialize` on each backend. */
  function EffectOrder(backend: Backend): seq<Step>
  {
    if backend == GL then ProgramOrder()
    else D3DShaderOrder(VertexStage) + D3DShaderOrder(FragmentStage)
  }

  /** The commands a successful OpenGL shader load issues for shader id
      `shader`: the source as three strings (the NUL-terminated buffer last),
      compile, attach to `program`. */
  function ShaderLog(program: nat, shader: nat, source: seq<Byte>): seq<Command>
  {
    [ShaderSourceCmd(shader, GlShaderPrefix, source), CompileShaderCmd(shader), AttachShaderCmd(program, shader)]
  }

  /** The loader reaches `malloc` for the shader source. */
  predicate SourceAllocated(stage: Stage, fails: set<Step>)
  {
    OpenShaderFile(stage) !in fails && ShaderFileSize(stage) !in fails && AllocateShaderSource(stage) !in fails
  }

  /** `LoadAndAllocateShaderProgram`: reads the file `text` into a new heap
      block one byte longer than the file, NUL-terminated. On an error before
      the read completes nothing stays allocated and `source` is NULL; the
      file is closed whenever it was opened. When only the close fails the
      result is false but the buffer is handed back, for the caller to free. */
  method LoadAndAllocateShaderProgram(dev: Device, fails: set<Step>, stage: Stage, text: seq<Byte>)
    returns (ok: bool, source: nat, size: nat, ghost attempted: seq<Step>)
    requires dev.Valid()
    modifies dev`blocks, dev`nextBlock, dev`freed, dev`openFiles, dev`next
    ensures dev.Valid()
    ensures StopsAtFirstFailure(SourceFileSteps(stage), fails, attempted)
    ensures ok <==> AllSucceed(SourceFileSteps(stage), fails)
    ensures dev.openFiles == old(dev.openFiles)
    ensures source != 0 <==> OpenShaderFile(stage) !in fails && AllSucceed(ReadSteps(stage), fails)
    ensures source == 0 ==> dev.blocks == old(dev.blocks)
    ensures source != 0 ==>
      && source !in old(dev.blocks) && dev.blocks == old(dev.blocks)[source := text + [0]]
      && size == |text| + 1 && dev.blocks[source][size - 1] == 0
    ensures old(dev.freed) <= dev.freed
    ensures |dev.freed| == |old(dev.freed)| + (if SourceAllocated(stage, fails) && source == 0 then 1 else 0)
  {
    ghost var rest := ReadSteps(stage) + [CloseShaderFile(stage)];
    assert SourceFileSteps(stage) == [OpenShaderFile(stage)] + rest;
    AllSucceedMembers([OpenShaderFile(stage)], fails);
    attempted := [OpenShaderFile(stage)];
    if OpenShaderFile(stage) in fails {
      StopsEarly(attempted, rest, fails, attempted);
      return false, 0, 0, attempted;
    }
    var handle := dev.OpenFile();
    ghost var a: seq<Step>;
    ok, source, size, a := ReadOpenFile(dev, fails, stage, text);
    StopsAtFirstFailureThen(attempted, ReadSteps(stage), fails, attempted, a);
    ghost var done := attempted + ReadSteps(stage);
    attempted := attempted + a;
    // OnExit
    dev.CloseFile(handle);
    assert SourceFileSteps(stage) == done + [CloseShaderFile(stage)];
    if !ok {
      StopsEarly(done, [CloseShaderFile(stage)], fails, attempted);
      return;
    }
    AllSucceedMembers([CloseShaderFile(stage)], fails);
    StopsAtFirstFailureThen(done, [CloseShaderFile(stage)], fails, attempted, [CloseShaderFile(stage)]);
    attempted := attempted + [CloseShaderFile(stage)];
    ok := CloseShaderFile(stage) !in fails;
  }

  /** The blocks of `LoadAndAllocateShaderProgram` while the file is open:
      its size plus one byte for the NUL, a block of that size, the read.
      A block whose read fails is freed at `OnExit`. */
  method ReadOpenFile(dev: Device, fails: set<Step>, stage: Stage, text: seq<Byte>)
    returns (ok: bool, source: nat, size: nat, ghost attempted: seq<Step>)
    requires dev.Valid()
    modifies dev`blocks, dev`nextBlock, dev`freed
    ensures dev.Valid()
    ensures StopsAtFirstFailure(ReadSteps(stage), fails, attempted)
    ensures ok <==> AllSucceed(ReadSteps(stage), fails)
    ensures source != 0 <==> ok
    ensures source == 0 ==> dev.blocks == old(dev.blocks)
    ensures source != 0 ==>
      && source !in old(dev.blocks) && dev.blocks == old(dev.blocks)[source := text + [0]]
      && size == |text| + 1 && dev.blocks[source][size - 1] == 0
    ensures old(dev.freed) <= dev.freed
    ensures |dev.freed| == |old(dev.freed)| +
      (if ShaderFileSize(stage) !in fails && AllocateShaderSource(stage) !in fails && !ok then 1 else 0)
  {
    AllSucceedMembers(ReadSteps(stage), fails);
    source, size := 0, 0;
    attempted := [ShaderFileSize(stage)];
    if ShaderFileSize(stage) in fails {
      return false, 0, 0, attempted;
    }
    size := |text| + 1;
    attempted := attempted + [AllocateShaderSource(stage)];
    if AllocateShaderSource(stage) in fails {
      return false, 0, size, attempted;
    }
    source := dev.Allocate(text + [0]);
    attempted := attempted + [ReadShaderFile(stage)];
    ok := ReadShaderFile(stage) !in fails;
    if !ok {
      dev.Free(source);
      source := 0;
    }
  }

  /** The block of `Load*Shader` that makes a shader id and sets its
      source. The id is 0 exactly when no shader was made. */
  method NewShader(dev: Device, fails: set<Step>, stage: Stage, source: seq<Byte>)
    returns (ok: bool, shaderId: nat, ghost attempted: seq<Step>)
    requires dev.Valid()
    modifies dev`live, dev`next, dev`log
    ensures dev.Valid()
    ensures StopsAtFirstFailure(NewShaderSteps(stage), fails, attempted)
    ensures ok <==> AllSucceed(NewShaderSteps(stage), fails)
    ensures shaderId != 0 <==> CreateShader(stage) !in fails && ShaderName(stage) !in fails
    ensures shaderId == 0 ==> dev.live == old(dev.live)
    ensures shaderId != 0 ==>
      Obj(ShaderObject, shaderId) !in old(dev.live) && dev.live == old(dev.live) + {Obj(ShaderObject, shaderId)}
    ensures ok ==> dev.log == old(dev.log) + [ShaderSourceCmd(shaderId, GlShaderPrefix, source)]
  {
    AllSucceedMembers(NewShaderSteps(stage), fails);
    attempted := [CreateShader(stage)];
    if CreateShader(stage) in fails {
      return false, 0, attempted;
    }
    attempted := attempted + [ShaderName(stage)];
    if ShaderName(stage) in fails {
      return false, 0, attempted;
    }
    shaderId := dev.Create(ShaderObject);
    attempted := attempted + [ShaderSource(stage)];
    dev.Issue(ShaderSourceCmd(shaderId, GlShaderPrefix, source));
    ok := ShaderSource(stage) !in fails;
  }

  /** The block of `Load*Shader` that compiles the shader and checks that
      the compile worked: the info log length, the info log and the status
      are queried, and a status of `GL_FALSE` fails the load. */
  method CompileSource(dev: Device, fails: set<Step>, stage: Stage, shaderId: nat)
    returns (ok: bool, ghost attempted: seq<Step>)
    modifies dev`log
    ensures StopsAtFirstFailure(CompileSteps(stage), fails, attempted)
    ensures ok <==> AllSucceed(CompileSteps(stage), fails)
    ensures dev.log == old(dev.log) + [CompileShaderCmd(shaderId)]
  {
    AllSucceedMembers(CompileSteps(stage), fails);
    dev.Issue(CompileShaderCmd(shaderId));
    attempted := [CompileShader(stage)];
    if CompileShader(stage) in fails {
      return false, attempted;
    }
    attempted := attempted + [CompileInfoLength(stage)];
    if CompileInfoLength(stage) in fails {
      return false, attempted;
    }
    attempted := attempted + [CompileInfo(stage)];
    if CompileInfo(stage) in fails {
      return false, attempted;
    }
    attempted := attempted + [CompileStatusQuery(stage)];
    if CompileStatusQuery(stage) in fails {
      return false, attempted;
    }
    attempted := attempted + [CompileRejected(stage)];
    ok := CompileRejected(stage) !in fails;
  }

  /** The blocks of `Load*Shader` after the source is in memory: a shader,
      compiled and attached to `programId`, each block run only when the
      ones before it worked. */
  method CompileAndAttach(dev: Device, fails: set<Step>, stage: Stage, programId: nat, source: seq<Byte>)
    returns (ok: bool, shaderId: nat, ghost attempted: seq<Step>)
    requires dev.Valid()
    modifies dev`live, dev`next, dev`log
    ensures dev.Valid()
    ensures StopsAtFirstFailure(NewShaderSteps(stage) + CompileSteps(stage) + [AttachShader(stage)], fails, attempted)
    ensures ok <==> AllSucceed(NewShaderSteps(stage) + CompileSteps(stage) + [AttachShader(stage)], fails)
    ensures shaderId == 0 ==> dev.live == old(dev.live)
    ensures shaderId != 0 ==>
      Obj(ShaderObject, shaderId) !in old(dev.live) && dev.live == old(dev.live) + {Obj(ShaderObject, shaderId)}
    ensures ok ==> shaderId != 0 && dev.log == old(dev.log) + ShaderLog(programId, shaderId, source)
  {
    ghost var a: seq<Step>;
    ghost var rest := CompileSteps(stage) + [AttachShader(stage)];
    assert NewShaderSteps(stage) + CompileSteps(stage) + [AttachShader(stage)] == NewShaderSteps(stage) + rest;
    ok, shaderId, attempted := NewShader(dev, fails, stage, source);
    if !ok {
      StopsEarly(NewShaderSteps(stage), rest, fails, attempted);
      return;
    }
    ghost var done := NewShaderSteps(stage);
    AllSucceedMembers(done, fails);
    ok, a := CompileSource(dev, fails, stage, shaderId);
    StopsAtFirstFailureThen(done, CompileSteps(stage), fails, attempted, a);
    attempted, done := attempted + a, done + CompileSteps(stage);
    if !ok {
      StopsEarly(done, [AttachShader(stage)], fails, attempted);
      return;
    }
    AllSucceedMembers(done + [AttachShader(stage)], fails);
    AllSucceedMembers(done, fails);
    dev.Issue(AttachShaderCmd(programId, shaderId));
    attempted := attempted + [AttachShader(stage)];
    ok := AttachShader(stage) !in fails;
  }

  /** The OpenGL `LoadVertexShader` and `LoadFragmentShader`, which differ
      only in the stage: check that run-time compiling is supported, read
      the source file, make, compile and attach a shader to `programId`.
      At `OnExit` the shader id, if any, is deleted (the program keeps the
      shader it was given) and the source buffer, if any, is freed, on every
      path; a failed delete is only reported. */
  method LoadShader(dev: Device, fails: set<Step>, stage: Stage, programId: nat, text: seq<Byte>)
    returns (ok: bool, ghost attempted: seq<Step>)
    requires dev.Valid()
    modifies dev`live, dev`next, dev`log, dev`blocks, dev`nextBlock, dev`freed, dev`openFiles
    ensures dev.Valid()
    ensures StopsAtFirstFailure(ShaderOrder(stage), fails, attempted)
    ensures ok <==> AllSucceed(ShaderOrder(stage), fails)
    ensures dev.live == old(dev.live) && dev.blocks == old(dev.blocks) && dev.openFiles == old(dev.openFiles)
    ensures old(dev.freed) <= dev.freed
    ensures |dev.freed| == |old(dev.freed)| + (if ShaderCompiler(stage) !in fails && SourceAllocated(stage, fails) then 1 else 0)
    ensures ok ==> exists shaderId :: dev.log == old(dev.log) + ShaderLog(programId, shaderId, text + [0])
  {
    ghost var a: seq<Step>;
    ghost var tail := NewShaderSteps(stage) + CompileSteps(stage) + [AttachShader(stage)];
    assert ShaderOrder(stage) == [ShaderCompiler(stage)] + SourceFileSteps(stage) + tail;
    attempted := [ShaderCompiler(stage)];
    AllSucceedMembers(attempted, fails);
    if ShaderCompiler(stage) in fails {
      StopsEarly(attempted, SourceFileSteps(stage) + tail, fails, attempted);
      return false, attempted;
    }
    var loaded, source, size;
    loaded, source, size, a := LoadAndAllocateShaderProgram(dev, fails, stage, text);
    ghost var done := [ShaderCompiler(stage)];
    StopsAtFirstFailureThen(done, SourceFileSteps(stage), fails, attempted, a);
    attempted, done := attempted + a, done + SourceFileSteps(stage);
    AllSucceedMembers(SourceFileSteps(stage), fails);
    AllSucceedMembers(ReadSteps(stage), fails);
    ghost var blocks1 := dev.blocks;
    ok, a := CompileThenRelease(dev, fails, stage, programId, loaded, source);
    assert dev.blocks == old(dev.blocks) by {
      assert dev.blocks == blocks1 - {source};
    }
    if !loaded {
      StopsEarly(done, tail, fails, attempted);
    } else {
      StopsAtFirstFailureThen(done, tail, fails, attempted, a);
      attempted := attempted + a;
    }
  }

  /** The rest of `LoadVertexShader` and `LoadFragmentShader` once the
      source is read (`loaded`) into the block `source`: make, compile and
      attach a shader, then, at `OnExit`, delete the shader id, if any, and
      free the source block, if any. */
  method CompileThenRelease(dev: Device, fails: set<Step>, stage: Stage, programId: nat, loaded: bool, source: nat)
    returns (ok: bool, ghost attempted: seq<Step>)
    requires dev.Valid()
    requires loaded ==> source in dev.blocks
    modifies dev`live, dev`next, dev`log, dev`blocks, dev`freed
    ensures dev.Valid()
    ensures loaded ==>
      && StopsAtFirstFailure(NewShaderSteps(stage) + CompileSteps(stage) + [AttachShader(stage)], fails, attempted)
      && (ok <==> AllSucceed(NewShaderSteps(stage) + CompileSteps(stage) + [AttachShader(stage)], fails))
    ensures !loaded ==> !ok
    ensures dev.live == old(dev.live)
    ensures dev.blocks == old(dev.blocks) - {source}
    ensures dev.freed == old(dev.freed) + (if source == 0 then [] else [source])
    ensures ok ==> exists shaderId :: dev.log == old(dev.log) + ShaderLog(programId, shaderId, old(dev.blocks)[source])
  {
    var shaderId := 0;
    ok := false;
    attempted := [];
    if loaded {
      ok, shaderId, attempted := CompileAndAttach(dev, fails, stage, programId, dev.blocks[source]);
    }
    // OnExit
    if shaderId != 0 {
      dev.Destroy(ShaderObject, shaderId);
    }
    dev.Free(source);
  }

  /** The link block of `CreateProgram`: link, then query the info log
      length, the info log and the status; a status of `GL_FALSE` fails. */
  method Link(dev: Device, fails: set<Step>, programId: nat) returns (ok: bool, ghost attempted: seq<Step>)
    modifies dev`log
    ensures StopsAtFirstFailure(LinkSteps, fails, attempted)
    ensures ok <==> AllSucceed(LinkSteps, fails)
    ensures dev.log == old(dev.log) + [LinkProgramCmd(programId)]
  {
    AllSucceedMembers(LinkSteps, fails);
    dev.Issue(LinkProgramCmd(programId));
    attempted := [LinkProgram];
    if LinkProgram in fails {
      return false, attempted;
    }
    attempted := attempted + [LinkInfoLength];
    if LinkInfoLength in fails {
      return false, attempted;
    }
    attempted := attempted + [LinkInfo];
    if LinkInfo in fails {
      return false, attempted;
    }
    attempted := attempted + [LinkStatusQuery];
    if LinkStatusQuery in fails {
      return false, attempted;
    }
    attempted := attempted + [LinkRejected];
    ok := LinkRejected !in fails;
  }

  /** The blocks of `CreateProgram` after the program id exists: vertex
      shader, fragment shader, link, stopping at the first that fails. */
  method BuildProgram(dev: Device, fails: set<Step>, programId: nat, files: ShaderFiles)
    returns (ok: bool, ghost attempted: seq<Step>)
    requires dev.Valid()
    modifies dev`live, dev`next, dev`log, dev`blocks, dev`nextBlock, dev`freed, dev`openFiles
    ensures dev.Valid()
    ensures StopsAtFirstFailure(ShaderOrder(VertexStage) + ShaderOrder(FragmentStage) + LinkSteps, fails, attempted)
    ensures ok <==> AllSucceed(ShaderOrder(VertexStage) + ShaderOrder(FragmentStage) + LinkSteps, fails)
    ensures dev.live == old(dev.live) && dev.blocks == old(dev.blocks) && dev.openFiles == old(dev.openFiles)
    ensures old(dev.freed) <= dev.freed
    ensures ok ==> exists vs, fs :: (dev.log == old(dev.log)
      + ShaderLog(programId, vs, files.vertex + [0]) + ShaderLog(programId, fs, files.fragment + [0])
      + [LinkProgramCmd(programId)])
  {
    ghost var a: seq<Step>;
    ghost var order := ShaderOrder(VertexStage) + ShaderOrder(FragmentStage) + LinkSteps;
    ghost var rest := ShaderOrder(FragmentStage) + LinkSteps;
    assert order == ShaderOrder(VertexStage) + rest;
    ok, attempted := LoadShader(dev, fails, VertexStage, programId, files.vertex);
    if !ok {
      StopsEarly(ShaderOrder(VertexStage), rest, fails, attempted);
      return;
    }
    ghost var log1 := dev.log;
    ghost var vs :| log1 == old(dev.log) + ShaderLog(programId, vs, files.vertex + [0]);
    ghost var freed1 := dev.freed;
    ok, a := LoadShader(dev, fails, FragmentStage, programId, files.fragment);
    StopsAtFirstFailureThen(ShaderOrder(VertexStage), ShaderOrder(FragmentStage), fails, attempted, a);
    attempted := attempted + a;
    ghost var done := ShaderOrder(VertexStage) + ShaderOrder(FragmentStage);
    assert order == done + LinkSteps;
    if !ok {
      StopsEarly(done, LinkSteps, fails, attempted);
      return;
    }
    ghost var fs :| dev.log == log1 + ShaderLog(programId, fs, files.fragment + [0]);
    ok, a := Link(dev, fails, programId);
    StopsAtFirstFailureThen(done, LinkSteps, fails, attempted, a);
    attempted := attempted + a;
    assert dev.log == old(dev.log)
      + ShaderLog(programId, vs, files.vertex + [0]) + ShaderLog(programId, fs, files.fragment + [0])
      + [LinkProgramCmd(programId)];
  }

  class Effect {
    const backend: Backend
    // OpenGL
    var programId: nat
    var positionOffset: int
    // Direct3D
    var vertexShader: nat
    var fragmentShader: nat
    var constantTable: nat
    var positionHandle: nat
    /** Whether a vertex compile has handed a value back through the
        constant table pointer; until then the pointer is undefined. */
    ghost var tableSet: bool
    /** Whether the effect has been `delete`d. */
    ghost var deleted: bool

    /** A new effect: the defaults `Effect.h` gives its fields. The constant
        table and the position handle have no default and stay unknown. */
    constructor (backend: Backend)
      ensures this.backend == backend
      ensures programId == 0 && positionOffset == -1
      ensures vertexShader == 0 && fragmentShader == 0
      ensures !tableSet && !deleted
    {
      this.backend := backend;
      programId, positionOffset := 0, -1;
      vertexShader, fragmentShader := 0, 0;
      tableSet := false;
      deleted := false;
    }

    /** The driver objects the effect holds and `ShutDown` releases. */
    function Held(): set<Obj>
      reads this`programId, this`vertexShader, this`fragmentShader
    {
      if backend == GL then
        (if programId != 0 then {Obj(ProgramObject, programId)} else {})
      else
        (if vertexShader != 0 then {Obj(VertexShaderObject, vertexShader)} else {})
        + (if fragmentShader != 0 then {Obj(PixelShaderObject, fragmentShader)} else {})
    }

    /** The Direct3D shader field of `stage`, and the object it names. */
    function ShaderField(stage: Stage): nat
      reads this`vertexShader, this`fragmentShader
    {
      if stage == VertexStage then vertexShader else fragmentShader
    }

    function StageShader(stage: Stage): set<Obj>
      reads this`vertexShader, this`fragmentShader
    {
      if stage == VertexStage then {Obj(VertexShaderObject, vertexShader)}
      else {Obj(PixelShaderObject, fragmentShader)}
    }

    /** The Direct3D constant table, which nothing ever releases. */
    function Table(): set<Obj>
      reads this`constantTable
    {
      if backend == D3D && constantTable != 0 then {Obj(ConstantTableObject, constantTable)} else {}
    }

    /** Under Direct3D, `SetDrawCallUniforms` calls through a constant table
        pointer that is undefined (no vertex compile has set it) or NULL. */
    ghost predicate TableInvalid()
      reads this`tableSet, this`constantTable
    {
      backend == D3D && (!tableSet || constantTable == 0)
    }

    /** `Initialize`: OpenGL creates and links the program and then looks up
        `g_position_offset`, whose absence (location -1) is not an error;
        Direct3D loads the vertex shader, then the fragment shader. Any
        failure shuts the effect down. `position` is where the driver puts
        `g_position_offset` when it finds it. */
    method Initialize(dev: Device, fails: set<Step>, files: ShaderFiles, position: nat)
      returns (ok: bool, ghost attempted: seq<Step>)
      requires dev.Valid()
      requires backend == D3D ==> dev.attached
      modifies this`programId, this`positionOffset, this`vertexShader, this`fragmentShader
      modifies this`constantTable, this`positionHandle, this`tableSet
      modifies dev`live, dev`next, dev`log, dev`blocks, dev`nextBlock, dev`freed, dev`openFiles
      ensures dev.Valid()
      ensures StopsAtFirstFailure(EffectOrder(backend), fails, attempted)
      ensures ok <==> AllSucceed(EffectOrder(backend), fails)
      ensures !ok ==> Held() == {}
      ensures ok ==> Held() != {} && old(dev.live) !! Held() && Held() <= dev.live
      ensures old(dev.live) - old(Held()) <= dev.live
      ensures dev.live <= old(dev.live) + Held() + Table()
      ensures dev.blocks == old(dev.blocks) && dev.openFiles == old(dev.openFiles)
      ensures ok && backend == GL ==>
        && positionOffset == (if UniformLocation in fails then -1 else position)
        && exists vs, fs :: (dev.log == old(dev.log)
             + ShaderLog(programId, vs, files.vertex + [0]) + ShaderLog(programId, fs, files.fragment + [0])
             + [LinkProgramCmd(programId)])
      ensures backend == GL || CompileFromFile(VertexStage) in fails ==> tableSet == old(tableSet)
      ensures ok && backend == D3D ==>
        && vertexShader != 0 && fragmentShader != 0
        && dev.log == old(dev.log) + [D3DCompileCmd(VertexStage), D3DCompileCmd(FragmentStage)]
        && tableSet
        && (ConstantTable in fails ==> constantTable == 0)
        && (ConstantTable !in fails ==>
              constantTable != 0 && positionHandle == (if PositionConstant in fails then 0 else position))
    {
      if backend == GL {
        ok, attempted := CreateProgram(dev, fails, files);
        if !ok {
          ShutDown(dev);
          return;
        }
        positionOffset := if UniformLocation in fails then -1 else position;
      } else {
        ok, attempted := LoadD3DShaders(dev, fails, position);
        if !ok {
          ShutDown(dev);
        }
      }
    }

    /** The Direct3D half of `Initialize` before `OnError`: the vertex
        shader, then, if it loaded, the fragment shader. */
    method LoadD3DShaders(dev: Device, fails: set<Step>, position: nat) returns (ok: bool, ghost attempted: seq<Step>)
      requires backend == D3D && dev.Valid() && dev.attached
      modifies this`vertexShader, this`fragmentShader, this`constantTable, this`positionHandle, this`tableSet
      modifies dev`live, dev`next, dev`log
      ensures dev.Valid()
      ensures StopsAtFirstFailure(EffectOrder(backend), fails, attempted)
      ensures ok <==> AllSucceed(EffectOrder(backend), fails)
      ensures ok ==> Held() != {} && old(dev.live) !! Held() && Held() <= dev.live
      ensures old(dev.live) <= dev.live
      ensures dev.live - old(dev.live) <= (if ok then Held() else StageShader(VertexStage)) + Table()
      ensures !ok ==> fragmentShader == old(fragmentShader)
      ensures !ok ==> vertexShader == old(vertexShader) || StageShader(VertexStage) !! old(dev.live)
      ensures CompileFromFile(VertexStage) in fails ==> tableSet == old(tableSet)
      ensures ok ==>
        && vertexShader != 0 && fragmentShader != 0
        && dev.log == old(dev.log) + [D3DCompileCmd(VertexStage), D3DCompileCmd(FragmentStage)]
        && tableSet
        && (ConstantTable in fails ==> constantTable == 0)
        && (ConstantTable !in fails ==>
              constantTable != 0 && positionHandle == (if PositionConstant in fails then 0 else position))
    {
      ghost var a: seq<Step>;
      AllSucceedMembers(D3DShaderOrder(VertexStage), fails);
      ok, attempted := LoadD3DShader(dev, fails, VertexStage, position);
      if !ok {
        StopsEarly(D3DShaderOrder(VertexStage), D3DShaderOrder(FragmentStage), fails, attempted);
        return;
      }
      ghost var live1 := dev.live;
      ok, a := LoadD3DShader(dev, fails, FragmentStage, position);
      StopsAtFirstFailureThen(D3DShaderOrder(VertexStage), D3DShaderOrder(FragmentStage), fails, attempted, a);
      attempted := attempted + a;
    }

    /** The Direct3D `LoadVertexShader` and `LoadFragmentShader`, which
        differ in the stage and in the vertex shader's constant table:
        compile the file (a failed compile returns before any object is
        made), release the compiler's message buffer either way, create the
        shader object from the compiled code and release the code whether
        or not that worked. The vertex compile also hands back the constant
        table, in which `g_position_offset` is looked up when the table
        exists; a missing table or constant is not an error. */
    method LoadD3DShader(dev: Device, fails: set<Step>, stage: Stage, position: nat)
      returns (ok: bool, ghost attempted: seq<Step>)
      requires backend == D3D && dev.Valid() && dev.attached
      modifies this`vertexShader, this`fragmentShader, this`constantTable, this`positionHandle, this`tableSet
      modifies dev`live, dev`next, dev`log
      ensures dev.Valid()
      ensures StopsAtFirstFailure(D3DShaderOrder(stage), fails, attempted)
      ensures ok <==> AllSucceed(D3DShaderOrder(stage), fails)
      ensures dev.log == old(dev.log) + [D3DCompileCmd(stage)]
      ensures stage == VertexStage ==> fragmentShader == old(fragmentShader)
      ensures stage == FragmentStage ==>
        && vertexShader == old(vertexShader) && constantTable == old(constantTable)
        && positionHandle == old(positionHandle) && tableSet == old(tableSet)
      ensures !ok ==> vertexShader == old(vertexShader) && fragmentShader == old(fragmentShader)
      ensures ok ==> ShaderField(stage) != 0 && old(dev.live) !! StageShader(stage) && StageShader(stage) <= dev.live
      ensures old(dev.live) <= dev.live
      ensures dev.live - old(dev.live) <= (if ok then StageShader(stage) else {}) + Table()
      ensures stage == VertexStage && CompileFromFile(stage) in fails ==>
        Table() == old(Table()) && tableSet == old(tableSet)
      ensures stage == VertexStage && CompileFromFile(stage) !in fails ==>
        && tableSet
        && (ConstantTable in fails ==> constantTable == 0)
        && (ConstantTable !in fails ==>
              && Obj(ConstantTableObject, constantTable) !in old(dev.live) && constantTable != 0
              && positionHandle == (if PositionConstant in fails then 0 else position))
    {
      AllSucceedMembers(D3DShaderOrder(stage), fails);
      var compiled := CompileD3DShader(dev, fails, stage);
      attempted := [CompileFromFile(stage)];
      if compiled == 0 {
        return false, attempted;
      }
      if stage == VertexStage {
        ReadConstantTable(dev, fails, position);
      }
      attempted := attempted + [CreateShaderObject(stage)];
      ok := CreateD3DShader(dev, fails, stage, compiled);
    }

    /** The constant table the vertex compile hands back, and the handle of
        `g_position_offset` in it, looked up only when the table exists. */
    method ReadConstantTable(dev: Device, fails: set<Step>, position: nat)
      requires backend == D3D && dev.Valid()
      modifies this`constantTable, this`positionHandle, this`tableSet, dev`live, dev`next
      ensures dev.Valid() && tableSet
      ensures ConstantTable in fails ==> constantTable == 0 && dev.live == old(dev.live)
      ensures ConstantTable !in fails ==>
        && constantTable != 0 && Table() !! old(dev.live) && dev.live == old(dev.live) + Table()
        && positionHandle == (if PositionConstant in fails then 0 else position)
    {
      tableSet := true;
      if ConstantTable in fails {
        constantTable := 0;
      } else {
        constantTable := dev.Create(ConstantTableObject);
        positionHandle := if PositionConstant in fails then 0 else position;
      }
    }

    /** The second block of a Direct3D shader load: the shader object is
        created from the compiled code `compiled`, which is released whether
        or not that worked. */
    method CreateD3DShader(dev: Device, fails: set<Step>, stage: Stage, compiled: nat) returns (ok: bool)
      requires backend == D3D && dev.Valid()
      modifies this`vertexShader, this`fragmentShader, dev`live, dev`next
      ensures dev.Valid()
      ensures ok <==> CreateShaderObject(stage) !in fails
      ensures !ok ==> vertexShader == old(vertexShader) && fragmentShader == old(fragmentShader)
      ensures stage == VertexStage ==> fragmentShader == old(fragmentShader)
      ensures stage == FragmentStage ==> vertexShader == old(vertexShader)
      ensures ok ==> ShaderField(stage) != 0 && old(dev.live) !! StageShader(stage)
      ensures dev.live == old(dev.live) - {Obj(BlobObject, compiled)} + (if ok then StageShader(stage) else {})
    {
      ok := CreateShaderObject(stage) !in fails;
      if ok {
        if stage == VertexStage {
          vertexShader := dev.Create(VertexShaderObject);
        } else {
          fragmentShader := dev.Create(PixelShaderObject);
        }
      }
      dev.Destroy(BlobObject, compiled);
    }

    /** `CreateProgram` (OpenGL): a new program id, then the shaders and the
        link. A failure after the id exists leaves the program set on the
        effect, for `ShutDown` to delete. */
    method CreateProgram(dev: Device, fails: set<Step>, files: ShaderFiles) returns (ok: bool, ghost attempted: seq<Step>)
      requires backend == GL && dev.Valid()
      modifies this`programId
      modifies dev`live, dev`next, dev`log, dev`blocks, dev`nextBlock, dev`freed, dev`openFiles
      ensures dev.Valid()
      ensures StopsAtFirstFailure(ProgramOrder(), fails, attempted)
      ensures ok <==> AllSucceed(ProgramOrder(), fails)
      ensures programId != 0 <==> Step.CreateProgram !in fails && ProgramName !in fails
      ensures ok ==> programId != 0
      ensures programId != 0 ==> Obj(ProgramObject, programId) !in old(dev.live)
      ensures dev.live == old(dev.live) + Held()
      ensures dev.blocks == old(dev.blocks) && dev.openFiles == old(dev.openFiles)
      ensures ok ==> exists vs, fs :: (dev.log == old(dev.log)
        + ShaderLog(programId, vs, files.vertex + [0]) + ShaderLog(programId, fs, files.fragment + [0])
        + [LinkProgramCmd(programId)])
    {
      ghost var rest := ShaderOrder(VertexStage) + ShaderOrder(FragmentStage) + LinkSteps;
      assert ProgramOrder() == ProgramSteps + rest;
      AllSucceedMembers(ProgramSteps, fails);
      attempted := [Step.CreateProgram];
      if Step.CreateProgram in fails {
        programId := 0;
        StopsEarly(ProgramSteps, rest, fails, attempted);
        return false, attempted;
      }
      attempted := attempted + [ProgramName];
      if ProgramName in fails {
        programId := 0;
        StopsEarly(ProgramSteps, rest, fails, attempted);
        return false, attempted;
      }
      programId := dev.Create(ProgramObject);
      AllSucceedMembers(ProgramSteps, fails);
      ghost var a: seq<Step>;
      ok, a := BuildProgram(dev, fails, programId, files);
      StopsAtFirstFailureThen(ProgramSteps, rest, fails, attempted, a);
      attempted := attempted + a;
    }

    /** `Bind`: makes the effect's shaders current. */
    method Bind(dev: Device)
      requires backend == D3D ==> dev.attached
      modifies dev`log
      ensures dev.log == old(dev.log) + BindLog()
    {
      if backend == GL {
        dev.Issue(UseProgramCmd(programId));
      } else {
        dev.Issue(SetVertexShaderCmd(vertexShader));
        dev.Issue(SetPixelShaderCmd(fragmentShader));
      }
    }

    /** The commands `Bind` issues. */
    function BindLog(): seq<Command>
      reads this`programId, this`vertexShader, this`fragmentShader
    {
      if backend == GL then [UseProgramCmd(programId)]
      else [SetVertexShaderCmd(vertexShader), SetPixelShaderCmd(fragmentShader)]
    }

    /** `SetDrawCallUniforms`: the first two floats of `values` go to the
        position offset. Under Direct3D they go through the constant table
        pointer, which is NULL when the compile handed back no table and
        undefined when no vertex compile got that far (it failed, or
        `Initialize` never ran): such a call is recorded as a use of an
        invalid pointer. A NULL table issues no command; an undefined one is
        logged as a call through whatever value the field holds. */
    method SetDrawCallUniforms(dev: Device, values: seq<Float32>)
      requires |values| >= 2
      modifies dev`log, dev`danglingUses
      ensures dev.log == old(dev.log) + UniformLog(values)
      ensures dev.danglingUses == old(dev.danglingUses) + (if TableInvalid() then 1 else 0)
    {
      if backend == GL {
        dev.Issue(Uniform2Cmd(positionOffset, values[..2]));
      } else if constantTable != 0 {
        dev.Issue(SetFloatArrayCmd(positionHandle, values[..2]));
      }
      if TableInvalid() {
        dev.UseDangling(1);
      }
    }

    /** The commands `SetDrawCallUniforms` issues. */
    function UniformLog(values: seq<Float32>): seq<Command>
      reads this`positionOffset, this`constantTable, this`positionHandle
      requires |values| >= 2
    {
      if backend == GL then [Uniform2Cmd(positionOffset, values[..2])]
      else if constantTable == 0 then []
      else [SetFloatArrayCmd(positionHandle, values[..2])]
    }

    /** `ShutDown`: releases every shader object the effect holds and
        forgets it, so that a second call does nothing; a failed delete is
        only reported. The Direct3D constant table is not released. */
    method ShutDown(dev: Device)
      requires dev.Valid()
      modifies this`programId, this`vertexShader, this`fragmentShader, dev`live
      ensures dev.Valid()
      ensures Held() == {}
      ensures dev.live == old(dev.live) - old(Held())
      ensures old(Held()) == {} ==> dev.live == old(dev.live)
    {
      if backend == GL {
        if programId != 0 {
          dev.Destroy(ProgramObject, programId);
          programId := 0;
        }
      } else {
        if vertexShader != 0 {
          dev.Destroy(VertexShaderObject, vertexShader);
          vertexShader := 0;
        }
        if fragmentShader != 0 {
          dev.Destroy(PixelShaderObject, fragmentShader);
          fragmentShader := 0;
        }
      }
    }
  }

  /** The first block of a Direct3D shader load: compile the file, and
      release the compiler's message buffer if it handed one back. The
      result is the compiled code, or 0 when the compile failed. */
  method CompileD3DShader(dev: Device, fails: set<Step>, stage: Stage) returns (compiled: nat)
    requires dev.Valid()
    modifies dev`live, dev`next, dev`log
    ensures dev.Valid()
    ensures dev.log == old(dev.log) + [D3DCompileCmd(stage)]
    ensures compiled != 0 <==> CompileFromFile(stage) !in fails
    ensures compiled == 0 ==> dev.live == old(dev.live)
    ensures compiled != 0 ==>
      Obj(BlobObject, compiled) !in old(dev.live) && dev.live == old(dev.live) + {Obj(BlobObject, compiled)}
  {
    dev.Issue(D3DCompileCmd(stage));
    if CompilerMessages(stage) in fails {
      var messages := dev.Create(BlobObject);
      dev.Destroy(BlobObject, messages);
    }
    compiled := 0;
    if CompileFromFile(stage) !in fails {
      compiled := dev.Create(BlobObject);
    }
  }

  /** What a Direct3D load hands to `D3DXCompileShaderFromFile`. */
  function D3DCompileCmd(stage: Stage): Command
  {
    CompileFromFileCmd(ShaderPath(stage), D3DDefines, EntryPoint, ShaderProfile(stage))
  }
}
