/** The vertex: two 32-bit float coordinates followed by four 8-bit colour
    channels, 12 bytes with no padding. The builder (`cMeshBuilder::sVertex`)
    and the engine (`Graphics::sVertex`) declare the struct separately; both
    store the channels red, green, blue, alpha under OpenGL and blue, green,
    red, alpha under Direct3D. */
module VertexFormat {
  import opened Bytes

  /** The graphics backend a build is compiled for (`EAE6320_PLATFORM_GL` or
      `EAE6320_PLATFORM_D3D`). */
  datatype Backend = GL | D3D

  /** A `float`, kept as its IEEE-754 bit pattern; no float arithmetic is
      modelled. */
  type Float32 = U32

  /** The float 0.0f. */
  const Zero: Float32 := 0

  /** A vertex by field name, independent of the memory order of its
      channels. */
  datatype Vertex = Vertex(x: Float32, y: Float32, r: Byte, g: Byte, b: Byte, a: Byte)

  datatype Channel = Red | Green | Blue | Alpha

  /** Size of `sVertex` in bytes. */
  const VertexSize: nat := 12

  /** Byte offset of the colour within `sVertex`. */
  const ColorOffset: nat := 8

  /** Declaration order of the colour channels in the builder's
      `cMeshBuilder::sVertex`. */
  function BuilderChannels(backend: Backend): seq<Channel>
  {
    match backend
    case GL => [Red, Green, Blue, Alpha]
    case D3D => [Blue, Green, Red, Alpha]
  }

  /** Declaration order of the colour channels in the engine's
      `Graphics::sVertex`. */
  function EngineChannels(backend: Backend): seq<Channel>
  {
    if backend == D3D then [Blue, Green, Red, Alpha] else [Red, Green, Blue, Alpha]
  }

  /** Each of the four channels exactly once: a storage order of the colour. */
  predicate IsChannelOrder(order: seq<Channel>)
  {
    && |order| == 4
    && Red in order && Green in order && Blue in order && Alpha in order
    && forall i, j :: 0 <= i < j < |order| ==> order[i] != order[j]
  }

  function ChannelValue(v: Vertex, c: Channel): Byte
  {
    match c
    case Red => v.r
    case Green => v.g
    case Blue => v.b
    case Alpha => v.a
  }

  /** Position of channel `c` within `order`. */
  function IndexOf(order: seq<Channel>, c: Channel): (k: nat)
    requires c in order
    ensures k < |order| && order[k] == c
    ensures forall j :: 0 <= j < k ==> order[j] != c
  {
    if order[0] == c then 0 else 1 + IndexOf(order[1..], c)
  }

  /** In a channel order, the channel at position `k` is found at `k`. */
  lemma IndexOfPosition(order: seq<Channel>, k: nat)
    requires IsChannelOrder(order) && k < |order|
    ensures IndexOf(order, order[k]) == k
  {
    var j := IndexOf(order, order[k]);
    assert j >= k;
  }

  /** The 12 bytes of a vertex whose channels are stored in `order`. */
  function EncodeVertex(order: seq<Channel>, v: Vertex): (s: seq<Byte>)
    requires |order| == 4
    ensures |s| == VertexSize
  {
    U32ToLe(v.x) + U32ToLe(v.y)
      + [ChannelValue(v, order[0]), ChannelValue(v, order[1]), ChannelValue(v, order[2]), ChannelValue(v, order[3])]
  }

  /** The vertex that 12 bytes reinterpret as when its channels are
      stored in `order`. */
  function DecodeVertex(order: seq<Channel>, s: seq<Byte>): Vertex
    requires IsChannelOrder(order) && |s| == VertexSize
  {
    Vertex(LeToU32(s[0..4]), LeToU32(s[4..8]),
           s[ColorOffset + IndexOf(order, Red)], s[ColorOffset + IndexOf(order, Green)],
           s[ColorOffset + IndexOf(order, Blue)], s[ColorOffset + IndexOf(order, Alpha)])
  }

  lemma BackendOrders(backend: Backend)
    ensures IsChannelOrder(BuilderChannels(backend)) && IsChannelOrder(EngineChannels(backend))
  {
  }

  /** Whatever the storage order, reading back a written vertex gives the
      same vertex. */
  lemma VertexRoundTrip(order: seq<Channel>, v: Vertex)
    requires IsChannelOrder(order)
    ensures DecodeVertex(order, EncodeVertex(order, v)) == v
  {
    var s := EncodeVertex(order, v);
    assert s[0..4] == U32ToLe(v.x);
    assert s[4..8] == U32ToLe(v.y);
    U32RoundTrip(v.x);
    U32RoundTrip(v.y);
    forall c: Channel | c in order ensures s[ColorOffset + IndexOf(order, c)] == ChannelValue(v, c) {
      var k := IndexOf(order, c);
      assert s[ColorOffset + k] == ChannelValue(v, order[k]);
    }
  }

  /** The two declarations agree: a vertex the builder writes for a backend is
      read back unchanged by the engine built for the same backend. */
  lemma BuilderEngineAgree(backend: Backend, v: Vertex)
    ensures IsChannelOrder(EngineChannels(backend))
    ensures DecodeVertex(EngineChannels(backend), EncodeVertex(BuilderChannels(backend), v)) == v
  {
    assert BuilderChannels(backend) == EngineChannels(backend);
    VertexRoundTrip(EngineChannels(backend), v);
  }

  /** Reading a Direct3D-built vertex with the OpenGL layout exchanges red and
      blue: the binary record is tied to the backend it was built for. */
  lemma CrossBackendSwapsRedAndBlue(v: Vertex)
    ensures IsChannelOrder(EngineChannels(GL))
    ensures DecodeVertex(EngineChannels(GL), EncodeVertex(BuilderChannels(D3D), v))
         == v.(r := v.b, b := v.r)
  {
    var s := EncodeVertex(BuilderChannels(D3D), v);
    assert s[0..4] == U32ToLe(v.x);
    assert s[4..8] == U32ToLe(v.y);
    U32RoundTrip(v.x);
    U32RoundTrip(v.y);
  }

  /** Under Direct3D the colour bytes form the `D3DCOLOR` value 0xAARRGGBB, as
      the vertex declaration's `D3DDECLTYPE_D3DCOLOR` element expects; under
      OpenGL they are the four unsigned bytes r, g, b, a in attribute
      component order. */
  lemma ColorBytes(backend: Backend, v: Vertex)
    ensures backend == D3D ==>
      LeToU32(EncodeVertex(BuilderChannels(backend), v)[ColorOffset .. ColorOffset + 4])
        == v.a * 0x100_0000 + v.r * 0x1_0000 + v.g * 0x100 + v.b
    ensures backend == GL ==>
      EncodeVertex(BuilderChannels(backend), v)[ColorOffset .. ColorOffset + 4] == [v.r, v.g, v.b, v.a]
  {
  }

  /** An array of vertices laid out back to back. */
  function EncodeVertices(order: seq<Channel>, vs: seq<Vertex>): (s: seq<Byte>)
    requires |order| == 4
    ensures |s| == VertexSize * |vs|
  {
    if vs == [] then [] else EncodeVertex(order, vs[0]) + EncodeVertices(order, vs[1..])
  }

  /** The vertex array a byte range reinterprets as. */
  function DecodeVertices(order: seq<Channel>, s: seq<Byte>): (vs: seq<Vertex>)
    requires IsChannelOrder(order) && |s| % VertexSize == 0
    ensures VertexSize * |vs| == |s|
  {
    if s == [] then [] else [DecodeVertex(order, s[..VertexSize])] + DecodeVertices(order, s[VertexSize..])
  }

  lemma {:induction false} VerticesRoundTrip(order: seq<Channel>, vs: seq<Vertex>)
    requires IsChannelOrder(order)
    ensures DecodeVertices(order, EncodeVertices(order, vs)) == vs
  {
    if vs != [] {
      var s := EncodeVertices(order, vs);
      assert s[..VertexSize] == EncodeVertex(order, vs[0]);
      assert s[VertexSize..] == EncodeVertices(order, vs[1..]);
      VertexRoundTrip(order, vs[0]);
      VerticesRoundTrip(order, vs[1..]);
    }
  }

  /** Where each vertex attribute sits in `sVertex`, as the device is told. */
  datatype AttribType = Float | UnsignedByte | D3DColor
  datatype Attribute = Attribute(location: nat, offset: nat, components: nat, ty: AttribType, normalized: bool)

  /** The Direct3D vertex declaration: POSITION as `D3DDECLTYPE_FLOAT2` at
      offset 0 and COLOR0 as `D3DDECLTYPE_D3DCOLOR` at offset 8, stream 0. */
  function D3DDeclaration(): seq<Attribute>
  {
    [Attribute(0, 0, 2, Float, false), Attribute(1, 8, 4, D3DColor, true)]
  }

  /** The bytes of `v` that an attribute covers. */
  function AttributeBytes(att: Attribute, s: seq<Byte>): seq<Byte>
    requires |s| == VertexSize
  {
    var size := if att.ty == Float then 4 * att.components else att.components;
    if att.offset + size <= |s| then s[att.offset .. att.offset + size] else []
  }

  /** Both the Direct3D declaration and the OpenGL attribute pointers (given
      the offsets `CreateVertexArray` computes) cover the position and colour
      bytes of an engine `sVertex` exactly. */
  lemma AttributesCoverVertex(backend: Backend, atts: seq<Attribute>, v: Vertex)
    requires atts == D3DDeclaration() || atts == GlAttributes(0)
    ensures var s := EncodeVertex(EngineChannels(backend), v);
      && AttributeBytes(atts[0], s) == U32ToLe(v.x) + U32ToLe(v.y)
      && AttributeBytes(atts[1], s) == s[ColorOffset .. VertexSize]
  {
    var s := EncodeVertex(EngineChannels(backend), v);
    assert s[0..8] == U32ToLe(v.x) + U32ToLe(v.y);
  }

  /** The attribute pointers `Mesh::CreateVertexArray` registers when the
      running offset starts at `start`: position (location 0) as two
      unnormalised floats, the offset advanced by their 8 bytes, then colour
      (location 1) as four normalised unsigned bytes. */
  function GlAttributes(start: nat): (atts: seq<Attribute>)
    ensures |atts| == 2 && atts[1].offset == atts[0].offset + 8
  {
    var position := Attribute(0, start, 2, Float, false);
    var color := Attribute(1, start + 4 * position.components, 4, UnsignedByte, true);
    [position, color]
  }
}
