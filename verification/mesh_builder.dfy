/** The offline mesh builder (`cMeshBuilder`): it runs a Lua asset file that
    returns a table of vertices and indices, fills its two arrays from that
    table and writes them as a binary mesh record. */
module MeshBuilder {
  import opened Bytes
  import opened VertexFormat
  import opened MeshRecord
  import opened LuaAsset
  import opened Winding

  /** How running the asset file ended, as far as the builder can tell:
      no Lua state could be created, the file did not load as a chunk, the
      chunk raised an error, or it returned `values`. */
  datatype Chunk = NoState | LoadError | RunError | Returned(values: seq<LuaValue>)

  /** `#t` converted to the `uint32_t` count fields. */
  function Count(t: LuaValue): (n: U32)
    requires t.Table?
    ensures |t.items| < U32Limit ==> n == |t.items|
    ensures n <= |t.items|
  {
    ToU32(|t.items|)
  }

  /** The first `n` entries of `items` are all tables. */
  predicate AllTables(items: seq<LuaValue>, n: nat)
    requires n <= |items|
  {
    forall j :: 0 <= j < n ==> items[j].Table?
  }

  /** The index values `(uint32_t)lua_tointeger(t[i])` for `i` in `1 .. n`,
      in the asset's order. */
  function IndexValues(items: seq<LuaValue>, n: nat): (r: seq<U32>)
    requires n <= |items|
    ensures |r| == n
    ensures forall k :: 0 <= k < n ==> r[k] == ToU32(ToInteger(items[k]))
  {
    seq(n, k requires 0 <= k < n => ToU32(ToInteger(items[k])))
  }

  /** The asset table `t` is one `ProcessMeshData` accepts: "vertices" is a
      table whose first `#vertices` entries are tables, and "indices" is a
      table. */
  predicate WellFormedAsset(t: LuaValue)
  {
    && t.Table?
    && Field(t, "vertices").Table?
    && AllTables(Field(t, "vertices").items, Count(Field(t, "vertices")))
    && Field(t, "indices").Table?
  }

  /** The asset makes `ProcessMeshData` return early with the vertices table
      still pushed: a vertex entry that is not a table. */
  predicate StrandsVerticesTable(t: LuaValue)
  {
    && t.Table?
    && Field(t, "vertices").Table?
    && !AllTables(Field(t, "vertices").items, Count(Field(t, "vertices")))
  }

  /** `Build` succeeds exactly when the chunk ran, returned exactly one value,
      and that value is a well-formed asset table. */
  predicate BuildSucceeds(chunk: Chunk)
  {
    chunk.Returned? && |chunk.values| == 1 && WellFormedAsset(chunk.values[0])
  }

  /** The vertex loop of `ProcessMeshData`: entry `i` of the vertices table
      on top of `L` (1-based) goes to element `i - 1`, until an entry is not a
      table. The stack is the same afterwards either way. */
  method FillVertices(L: LuaState, vertices: array<Vertex>) returns (ok: bool)
    requires L.stack != [] && L.Top().Table? && vertices.Length == Count(L.Top()) as int
    modifies L, vertices
    ensures L.stack == old(L.stack)
    ensures ok <==> AllTables(old(L.Top()).items, vertices.Length)
    ensures forall j :: 0 <= j < vertices.Length && AllTables(old(L.Top()).items, j + 1) ==>
      VertexFrom(old(L.Top()).items[j], vertices[j])
  {
    var vs := L.Top();
    var i: int := 1;
    while i <= vertices.Length
      invariant 1 <= i <= vertices.Length + 1
      invariant L.stack == old(L.stack)
      invariant AllTables(vs.items, i - 1)
      invariant forall j :: 0 <= j < i - 1 ==> VertexFrom(vs.items[j], vertices[j])
    {
      var isTable := L.LoadTableWithIndex(i);
      if !isTable {
        assert !AllTables(vs.items, i);
        return false;
      }
      var v := L.GetVertexData();
      vertices[i - 1] := v;
      L.Pop(1);
      i := i + 1;
    }
    return true;
  }

  /** The index loop of `ProcessMeshData`: entry `i` of the indices table on
      top of `L` (1-based), converted to `uint32_t`, goes to the slot the
      backend's winding gives index `i - 1`. */
  method FillIndices(backend: Backend, L: LuaState, indices: array<U32>)
    requires L.stack != [] && L.Top().Table? && indices.Length == Count(L.Top()) as int
    modifies L, indices
    ensures L.stack == old(L.stack)
    ensures indices[..] == Rewind(backend, IndexValues(old(L.Top()).items, indices.Length))
  {
    var idx := L.Top();
    var n := indices.Length;
    ghost var values := IndexValues(idx.items, n);
    var i := 1;
    while i <= n
      invariant 1 <= i <= n + 1
      invariant L.stack == old(L.stack)
      invariant forall x :: 0 <= x < i - 1 ==> indices[Slot(backend, x, n)] == values[x]
    {
      var loaded := L.LoadValueWithIndex(i);
      var x := Slot(backend, i - 1, n);
      indices[x] := ToU32(ToInteger(L.Top()));
      L.Pop(1);
      forall x' | 0 <= x' < i - 1 ensures Slot(backend, x', n) != x {
        if Slot(backend, x', n) == x {
          SlotInjective(backend, x', i - 1, n);
        }
      }
      i := i + 1;
    }
    forall y | 0 <= y < n ensures indices[y] == Rewind(backend, values)[y] {
      SlotInvolution(backend, y, n);
    }
  }

  /** What an array pointer of the builder holds, as `delete` sees it:
      never set (an undefined value), an array from `new[]`, or an array
      already deleted (the pointer is not cleared afterwards). */
  datatype Pointee = Undefined | Allocated | Released

  /** `ProcessMeshData` runs and allocates the vertex array: the chunk
      returned one table, and its "vertices" field is a table. */
  predicate AllocatesVertices(chunk: Chunk)
  {
    chunk.Returned? && |chunk.values| == 1 && chunk.values[0].Table? && Field(chunk.values[0], "vertices").Table?
  }

  /** What a pointer holds after `OnExit` deletes what it held: an undefined
      pointer stays undefined, anything else is released. */
  function AfterDelete(p: Pointee): (q: Pointee)
    ensures q == Undefined <==> p == Undefined
  {
    if p == Undefined then Undefined else Released
  }

  class MeshBuilder {
    const backend: Backend
    var vertexCount: U32
    var indexCount: U32
    var vertexData: array?<Vertex>
    var indexData: array?<U32>
    /** What `mVertexData` and `mIndexData` hold. */
    ghost var vertexPointee: Pointee
    ghost var indexPointee: Pointee
    /** What the two pointers held at each `delete` of `OnExit`, in order:
        the vertex pointer, then the index pointer, for every `Build`. */
    ghost var exitDeletes: seq<Pointee>

    /** `cMeshBuilder` declares no constructor, so its counts and pointers
        start undefined. */
    constructor (backend: Backend)
      ensures this.backend == backend
      ensures vertexPointee == Undefined && indexPointee == Undefined
      ensures exitDeletes == []
    {
      this.backend := backend;
      vertexCount, indexCount := *, *;
      vertexData, indexData := *, *;
      vertexPointee, indexPointee := Undefined, Undefined;
      exitDeletes := [];
    }

    /** `ProcessMeshData`, with the asset table on top of `L`'s stack. The
        vertex array gets one entry per "vertices" entry, in order; the index
        array gets the "indices" entries rewound for the backend. A missing
        "vertices" or "indices" table fails with the stack as it was; a vertex
        entry that is not a table fails with the vertices table left on the
        stack. */
    method ProcessMeshData(L: LuaState) returns (ok: bool)
      requires L.stack != [] && L.Top().Table?
      modifies this, L
      ensures ok <==> WellFormedAsset(old(L.Top()))
      ensures var t := old(L.Top());
        L.stack == if StrandsVerticesTable(t) then old(L.stack) + [Field(t, "vertices")] else old(L.stack)
      ensures vertexPointee == if Field(old(L.Top()), "vertices").Table? then Allocated else old(vertexPointee)
      ensures indexPointee == if ok then Allocated else old(indexPointee)
      ensures exitDeletes == old(exitDeletes)
      ensures var t := old(L.Top());
        !Field(t, "vertices").Table? ==>
          vertexCount == old(vertexCount) && vertexData == old(vertexData)
      ensures var t := old(L.Top());
        Field(t, "vertices").Table? ==>
          var vs := Field(t, "vertices");
          && vertexCount == Count(vs)
          && vertexData != null && fresh(vertexData) && vertexData.Length == vertexCount as int
          && forall j :: 0 <= j < vertexCount as int && AllTables(vs.items, j + 1) ==>
               VertexFrom(vs.items[j], vertexData[j])
      ensures ok ==>
        var idx := Field(old(L.Top()), "indices");
        && indexCount == Count(idx)
        && indexData != null && fresh(indexData)
        && indexData[..] == Rewind(backend, IndexValues(idx.items, Count(idx)))
      ensures !ok ==> indexCount == old(indexCount) && indexData == old(indexData)
    {
      ghost var base := L.stack;
      ghost var t := L.Top();
      var hasVertices := L.LoadTableWithKey("vertices");
      if !hasVertices {
        return false;
      }
      var vs := L.Top();
      vertexCount := Count(vs);
      var vertices := new Vertex[vertexCount];
      vertexData := vertices;
      vertexPointee := Allocated;
      var filled := FillVertices(L, vertices);
      if !filled {
        return false;
      }
      L.Pop(1);
      ok := ProcessIndices(L);
    }

    /** The index half of `ProcessMeshData`, with the asset table on top of
        `L`'s stack: fails when "indices" is not a table, and otherwise fills
        a new index array from it. The stack is as it was either way. */
    method ProcessIndices(L: LuaState) returns (ok: bool)
      requires L.stack != [] && L.Top().Table?
      modifies this`indexCount, this`indexData, this`indexPointee, L
      ensures ok <==> Field(old(L.Top()), "indices").Table?
      ensures L.stack == old(L.stack)
      ensures indexPointee == if ok then Allocated else old(indexPointee)
      ensures ok ==>
        var idx := Field(old(L.Top()), "indices");
        && indexCount == Count(idx)
        && indexData != null && fresh(indexData)
        && indexData[..] == Rewind(backend, IndexValues(idx.items, Count(idx)))
      ensures !ok ==> indexCount == old(indexCount) && indexData == old(indexData)
    {
      var hasIndices := L.LoadTableWithKey("indices");
      if !hasIndices {
        return false;
      }
      var idx := L.Top();
      indexCount := Count(idx);
      var indices := new U32[indexCount];
      indexData := indices;
      indexPointee := Allocated;
      FillIndices(backend, L, indices);
      L.Pop(1);
      return true;
    }

    /** `Build`: runs the asset, processes its table and, when nothing went
        wrong, writes the record to the target file. `targetOpens` says
        whether `fopen_s` of the target succeeds; `written` is the content of
        the target file, if it was written. `stackAtExit` is `lua_gettop` at
        `OnExit`, which the source asserts to be zero. `OnExit` then deletes
        both arrays on every path, whatever the pointers hold: an undefined
        pointer when nothing set it, an array deleted by an earlier `Build`,
        or an array from `new[]`, deleted with the scalar `delete`. */
    method Build(chunk: Chunk, targetOpens: bool) returns (ok: bool, written: Option<seq<Byte>>, stackAtExit: nat)
      modifies this
      ensures ok <==> BuildSucceeds(chunk)
      ensures var v := if AllocatesVertices(chunk) then Allocated else old(vertexPointee);
        var i := if ok then Allocated else old(indexPointee);
        && exitDeletes == old(exitDeletes) + [v, i]
        && vertexPointee == AfterDelete(v) && indexPointee == AfterDelete(i)
      ensures written.Some? <==> ok && targetOpens
      ensures stackAtExit == 0 <==>
        !(chunk.Returned? && |chunk.values| == 1 && StrandsVerticesTable(chunk.values[0]))
      ensures ok ==>
        var t := chunk.values[0];
        var vs, idx := Field(t, "vertices"), Field(t, "indices");
        && vertexData != null && indexData != null
        && vertexData.Length == Count(vs) as int
        && (forall j :: 0 <= j < vertexData.Length ==> VertexFrom(vs.items[j], vertexData[j]))
        && indexData[..] == Rewind(backend, IndexValues(idx.items, Count(idx)))
      ensures written.Some? ==>
        && vertexData != null && indexData != null
        && Representable(MeshData(vertexData[..], indexData[..]))
        && written.value == Serialize(backend, MeshData(vertexData[..], indexData[..]))
        && Parse(backend, written.value) == Some(MeshData(vertexData[..], indexData[..]))
    {
      ok, written, stackAtExit := RunAsset(chunk, targetOpens);
      DeleteArrays();
    }

    /** `Build` up to `OnExit`: everything but the two deletes. */
    method RunAsset(chunk: Chunk, targetOpens: bool) returns (ok: bool, written: Option<seq<Byte>>, stackAtExit: nat)
      modifies this
      ensures ok <==> BuildSucceeds(chunk)
      ensures vertexPointee == if AllocatesVertices(chunk) then Allocated else old(vertexPointee)
      ensures indexPointee == if ok then Allocated else old(indexPointee)
      ensures exitDeletes == old(exitDeletes)
      ensures written.Some? <==> ok && targetOpens
      ensures stackAtExit == 0 <==>
        !(chunk.Returned? && |chunk.values| == 1 && StrandsVerticesTable(chunk.values[0]))
      ensures ok ==>
        var t := chunk.values[0];
        var vs, idx := Field(t, "vertices"), Field(t, "indices");
        && vertexData != null && indexData != null
        && vertexData.Length == Count(vs) as int
        && (forall j :: 0 <= j < vertexData.Length ==> VertexFrom(vs.items[j], vertexData[j]))
        && indexData[..] == Rewind(backend, IndexValues(idx.items, Count(idx)))
      ensures written.Some? ==>
        && vertexData != null && indexData != null
        && Representable(MeshData(vertexData[..], indexData[..]))
        && written.value == Serialize(backend, MeshData(vertexData[..], indexData[..]))
        && Parse(backend, written.value) == Some(MeshData(vertexData[..], indexData[..]))
    {
      ok, written, stackAtExit := false, None, 0;
      if chunk.NoState? {
        return;
      }
      var L := new LuaState();
      match chunk {
        case LoadError =>
          // The error message is pushed and popped again.
          return;
        case RunError =>
          return;
        case Returned(values) =>
          L.PushAll(values);
          if |L.stack| != 1 {
            L.Pop(|L.stack|);
            return;
          }
          if !L.Top().Table? {
            L.Pop(1);
            return;
          }
      }
      var processed := ProcessMeshData(L);
      L.Pop(1);
      ok := processed;
      if ok && targetOpens {
        var m := MeshData(vertexData[..], indexData[..]);
        written := Some(Serialize(backend, m));
        RoundTrip(backend, m);
      }
      stackAtExit := |L.stack|;
    }

    /** The two `delete`s of `OnExit`. The arrays stay readable in the model;
        only what the pointers hold changes. */
    method DeleteArrays()
      modifies this`vertexPointee, this`indexPointee, this`exitDeletes
      ensures exitDeletes == old(exitDeletes) + [old(vertexPointee), old(indexPointee)]
      ensures vertexPointee == AfterDelete(old(vertexPointee)) && indexPointee == AfterDelete(old(indexPointee))
    {
      exitDeletes := exitDeletes + [vertexPointee, indexPointee];
      vertexPointee, indexPointee := AfterDelete(vertexPointee), AfterDelete(indexPointee);
    }
  }
}
