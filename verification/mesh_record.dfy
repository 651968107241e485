/** The binary mesh record the builder writes and the engine loads:
    `vertexCount` (uint32), `indexCount` (uint32), the vertices, the indices,
    back to back with no padding, no tag and no version. */
module MeshRecord {
  import opened Bytes
  import opened VertexFormat

  /** The contents of a record. */
  datatype MeshData = MeshData(vertices: seq<Vertex>, indices: seq<U32>)

  /** The counts fit the two `uint32_t` header fields. */
  predicate Representable(m: MeshData)
  {
    |m.vertices| < U32Limit && |m.indices| < U32Limit
  }

  const HeaderSize: nat := 8

  /** Whole vertices and whole indices. */
  lemma Aligned(vc: nat, ic: nat)
    ensures (VertexSize * vc) % VertexSize == 0 && (4 * ic) % 4 == 0
  {
  }

  /** Bytes a record with these counts occupies. */
  function RecordSize(vertexCount: nat, indexCount: nat): nat
  {
    HeaderSize + VertexSize * vertexCount + 4 * indexCount
  }

  /** The file `cMeshBuilder::Build` writes: the two counts, the vertex array
      in the builder's `sVertex` layout, then the index array. */
  function Serialize(backend: Backend, m: MeshData): (s: seq<Byte>)
    requires Representable(m)
  {
    U32ToLe(|m.vertices|) + U32ToLe(|m.indices|)
      + EncodeVertices(BuilderChannels(backend), m.vertices) + U32sToLe(m.indices)
  }

  lemma SerializeLayout(backend: Backend, m: MeshData)
    requires Representable(m)
    ensures var s := Serialize(backend, m);
      && |s| == RecordSize(|m.vertices|, |m.indices|)
      && LeToU32(s[0..4]) == |m.vertices|
      && LeToU32(s[4..8]) == |m.indices|
      && s[HeaderSize .. HeaderSize + VertexSize * |m.vertices|] == EncodeVertices(BuilderChannels(backend), m.vertices)
      && s[HeaderSize + VertexSize * |m.vertices| ..] == U32sToLe(m.indices)
  {
    var s := Serialize(backend, m);
    assert s[0..4] == U32ToLe(|m.vertices|);
    assert s[4..8] == U32ToLe(|m.indices|);
    U32RoundTrip(|m.vertices|);
    U32RoundTrip(|m.indices|);
  }

  /** The counts `Mesh::LoadMesh` reads from the first eight bytes. */
  function HeaderCounts(s: seq<Byte>): (counts: (U32, U32))
    requires |s| >= HeaderSize
  {
    (LeToU32(s[0..4]), LeToU32(s[4..8]))
  }

  /** Where `Mesh::LoadMesh` points `mVertexData` and `mIndexData`: offset 8
      and offset `8 + sizeof(sVertex) * vertexCount` of the buffer. Nothing
      checks these against the length of the buffer. */
  function ViewOffsets(s: seq<Byte>): (offsets: (nat, nat))
    requires |s| >= HeaderSize
    ensures offsets.0 == HeaderSize
    ensures offsets.1 == HeaderSize + VertexSize * HeaderCounts(s).0
  {
    (HeaderSize, HeaderSize + VertexSize * LeToU32(s[0..4]))
  }

  /** The two views lie inside the buffer. */
  predicate ViewsInBounds(s: seq<Byte>)
    requires |s| >= HeaderSize
  {
    ViewOffsets(s).1 + 4 * HeaderCounts(s).1 <= |s|
  }

  /** As written, `Mesh::LoadMesh` accepts a buffer whose header promises more
      data than the buffer holds: an 8-byte file that announces one vertex
      yields a vertex view lying wholly past the end of the buffer. */
  lemma TruncatedRecordOverrunsViews()
    ensures var s := U32ToLe(1) + U32ToLe(0);
      && |s| == HeaderSize
      && HeaderCounts(s) == (1, 0)
      && ViewOffsets(s).0 + VertexSize > |s|
      && !ViewsInBounds(s)
  {
    var s := U32ToLe(1) + U32ToLe(0);
    assert s[0..4] == U32ToLe(1) && s[4..8] == U32ToLe(0);
    U32RoundTrip(1);
    U32RoundTrip(0);
  }

  /** The loader with the missing length check added: a buffer shorter than its
      header, or shorter than the header's counts require, is rejected instead
      of being reinterpreted. Bytes past the record are ignored, as the
      source ignores them. */
  function Parse(backend: Backend, s: seq<Byte>): (r: Option<MeshData>)
    ensures r.Some? <==> |s| >= HeaderSize && ViewsInBounds(s)
    ensures r.Some? ==> (|r.value.vertices|, |r.value.indices|) == HeaderCounts(s)
  {
    if |s| < HeaderSize || !ViewsInBounds(s) then None
    else Some(Decoded(backend, s, HeaderCounts(s).0, HeaderCounts(s).1))
  }

  /** The vertices and indices of a record whose header holds `vc` and `ic`
      and whose buffer is long enough for both views. */
  function Decoded(backend: Backend, s: seq<Byte>, vc: nat, ic: nat): (m: MeshData)
    requires RecordSize(vc, ic) <= |s|
    ensures |m.vertices| == vc && |m.indices| == ic
  {
    BackendOrders(backend);
    Aligned(vc, ic);
    MeshData(DecodeVertices(EngineChannels(backend), s[HeaderSize .. HeaderSize + VertexSize * vc]),
             LeToU32s(s[HeaderSize + VertexSize * vc .. RecordSize(vc, ic)]))
  }

  /** `vertexBytes` and `indexBytes` are the vertex and the index segment of
      the record `s`, whose header fits the buffer. */
  predicate Segments(s: seq<Byte>, vertexBytes: seq<Byte>, indexBytes: seq<Byte>)
  {
    && |s| >= HeaderSize
    && var (vc, ic) := HeaderCounts(s);
    && RecordSize(vc, ic) <= |s|
    && vertexBytes == s[HeaderSize .. HeaderSize + VertexSize * vc]
    && indexBytes == s[HeaderSize + VertexSize * vc .. RecordSize(vc, ic)]
  }

  /** What `Parse` makes of a record is its two segments, decoded. */
  lemma SegmentsParse(backend: Backend, s: seq<Byte>, vertexBytes: seq<Byte>, indexBytes: seq<Byte>)
    requires Segments(s, vertexBytes, indexBytes)
    ensures IsChannelOrder(EngineChannels(backend))
    ensures |vertexBytes| % VertexSize == 0 && |indexBytes| % 4 == 0
    ensures Parse(backend, s) ==
      Some(MeshData(DecodeVertices(EngineChannels(backend), vertexBytes), LeToU32s(indexBytes)))
  {
    var (vc, ic) := HeaderCounts(s);
    ParseUnfold(backend, s, vc, ic);
    Aligned(vc, ic);
  }

  lemma ParseUnfold(backend: Backend, s: seq<Byte>, vc: nat, ic: nat)
    requires |s| >= HeaderSize && HeaderCounts(s) == (vc, ic)
    requires RecordSize(vc, ic) <= |s|
    ensures IsChannelOrder(EngineChannels(backend))
    ensures Parse(backend, s) == Some(MeshData(
      DecodeVertices(EngineChannels(backend), s[HeaderSize .. HeaderSize + VertexSize * vc]),
      LeToU32s(s[HeaderSize + VertexSize * vc .. RecordSize(vc, ic)])))
  {
    assert ViewsInBounds(s);
    assert Parse(backend, s) == Some(Decoded(backend, s, vc, ic));
    BackendOrders(backend);
  }

  /** Reading back a record built for the same backend yields the counts,
      vertices and indices that were written. */
  lemma RoundTrip(backend: Backend, m: MeshData)
    requires Representable(m)
    ensures Parse(backend, Serialize(backend, m)) == Some(m)
  {
    SerializeLayout(backend, m);
    ParseLaidOut(backend, Serialize(backend, m), m);
  }

  /** Any buffer laid out as `Serialize` lays out `m` parses to `m`. */
  lemma ParseLaidOut(backend: Backend, s: seq<Byte>, m: MeshData)
    requires |s| == RecordSize(|m.vertices|, |m.indices|)
    requires LeToU32(s[0..4]) == |m.vertices| && LeToU32(s[4..8]) == |m.indices|
    requires s[HeaderSize .. HeaderSize + VertexSize * |m.vertices|] == EncodeVertices(BuilderChannels(backend), m.vertices)
    requires s[HeaderSize + VertexSize * |m.vertices| ..] == U32sToLe(m.indices)
    ensures Parse(backend, s) == Some(m)
  {
    var vc, ic := |m.vertices|, |m.indices|;
    var iOff := HeaderSize + VertexSize * vc;
    var order := EngineChannels(backend);
    ParseUnfold(backend, s, vc, ic);
    assert BuilderChannels(backend) == order;
    assert s[iOff .. RecordSize(vc, ic)] == U32sToLe(m.indices);
    U32sRoundTrip(m.indices);
    VerticesRoundTrip(order, m.vertices);
  }

  /** Conversely, an exactly-sized buffer that parses is the serialisation of
      what it parses to: the record has exactly one encoding. */
  lemma ParseIsExact(backend: Backend, s: seq<Byte>, m: MeshData)
    requires Parse(backend, s) == Some(m)
    requires |s| == RecordSize(|m.vertices|, |m.indices|)
    ensures Representable(m)
    ensures Serialize(backend, m) == s
  {
    ParsedSegments(backend, s, m);
    HeaderBytes(s, |m.vertices|, |m.indices|);
    Reassemble(s, HeaderSize + VertexSize * |m.vertices|, U32ToLe(|m.vertices|), U32ToLe(|m.indices|),
      EncodeVertices(BuilderChannels(backend), m.vertices), U32sToLe(m.indices));
  }

  /** A record is its header fields, its vertex bytes and its index bytes. */
  lemma Reassemble(s: seq<Byte>, j: nat, a: seq<Byte>, b: seq<Byte>, c: seq<Byte>, d: seq<Byte>)
    requires HeaderSize <= j <= |s|
    requires a == s[0..4] && b == s[4..8] && c == s[HeaderSize .. j] && d == s[j ..]
    ensures a + b + c + d == s
  {
    assert s == s[0..4] + s[4..8] + s[HeaderSize .. j] + s[j ..];
  }

  /** The vertex and index bytes of an exactly-sized buffer that parses to
      `m` are the encodings of the vertices and indices of `m`. */
  lemma ParsedSegments(backend: Backend, s: seq<Byte>, m: MeshData)
    requires Parse(backend, s) == Some(m)
    requires |s| == RecordSize(|m.vertices|, |m.indices|)
    ensures EncodeVertices(BuilderChannels(backend), m.vertices) == s[HeaderSize .. HeaderSize + VertexSize * |m.vertices|]
    ensures U32sToLe(m.indices) == s[HeaderSize + VertexSize * |m.vertices| ..]
  {
    var vc, ic := |m.vertices|, |m.indices|;
    var iOff := HeaderSize + VertexSize * vc;
    var vbytes, ibytes := s[HeaderSize .. iOff], s[iOff ..];
    assert ibytes == s[iOff .. RecordSize(vc, ic)];
    SegmentsParse(backend, s, vbytes, ibytes);
    EncodeDecoded(backend, vbytes, ibytes);
  }

  /** The header fields are the encodings of the counts they hold. */
  lemma HeaderBytes(s: seq<Byte>, vc: nat, ic: nat)
    requires |s| >= HeaderSize && HeaderCounts(s) == (vc, ic)
    ensures vc < U32Limit && ic < U32Limit
    ensures U32ToLe(vc) == s[0..4] && U32ToLe(ic) == s[4..8]
  {
    LeRoundTrip(s[0..4]);
    LeRoundTrip(s[4..8]);
  }

  lemma EncodeDecoded(backend: Backend, vbytes: seq<Byte>, ibytes: seq<Byte>)
    requires |vbytes| % VertexSize == 0 && |ibytes| % 4 == 0
    ensures IsChannelOrder(EngineChannels(backend))
    ensures EncodeVertices(BuilderChannels(backend), DecodeVertices(EngineChannels(backend), vbytes)) == vbytes
    ensures U32sToLe(LeToU32s(ibytes)) == ibytes
  {
    BackendOrders(backend);
    assert BuilderChannels(backend) == EngineChannels(backend);
    DecodeEncodeVertices(EngineChannels(backend), vbytes);
    DecodeEncodeU32s(ibytes);
  }

  lemma {:induction false} DecodeEncodeVertices(order: seq<Channel>, s: seq<Byte>)
    requires IsChannelOrder(order) && |s| % VertexSize == 0
    ensures EncodeVertices(order, DecodeVertices(order, s)) == s
  {
    if s != [] {
      DecodeEncodeVertex(order, s[..VertexSize]);
      DecodeEncodeVertices(order, s[VertexSize..]);
      assert s == s[..VertexSize] + s[VertexSize..];
    }
  }

  lemma DecodeEncodeVertex(order: seq<Channel>, s: seq<Byte>)
    requires IsChannelOrder(order) && |s| == VertexSize
    ensures EncodeVertex(order, DecodeVertex(order, s)) == s
  {
    var e := EncodeVertex(order, DecodeVertex(order, s));
    EncodedPosition(order, s);
    EncodedColor(order, s);
    assert e == e[..ColorOffset] + e[ColorOffset..];
    assert s == s[..ColorOffset] + s[ColorOffset..];
  }

  lemma EncodedPosition(order: seq<Channel>, s: seq<Byte>)
    requires IsChannelOrder(order) && |s| == VertexSize
    ensures EncodeVertex(order, DecodeVertex(order, s))[..ColorOffset] == s[..ColorOffset]
  {
    var e := EncodeVertex(order, DecodeVertex(order, s));
    assert e[0..4] == s[0..4] by { LeRoundTrip(s[0..4]); }
    assert e[4..8] == s[4..8] by { LeRoundTrip(s[4..8]); }
    assert e[..ColorOffset] == e[0..4] + e[4..8];
    assert s[..ColorOffset] == s[0..4] + s[4..8];
  }

  lemma EncodedColor(order: seq<Channel>, s: seq<Byte>)
    requires IsChannelOrder(order) && |s| == VertexSize
    ensures EncodeVertex(order, DecodeVertex(order, s))[ColorOffset..] == s[ColorOffset..]
  {
    var v := DecodeVertex(order, s);
    var e := EncodeVertex(order, v);
    ChannelAt(order, s, 0);
    ChannelAt(order, s, 1);
    ChannelAt(order, s, 2);
    ChannelAt(order, s, 3);
    assert e[ColorOffset..] == [ChannelValue(v, order[0]), ChannelValue(v, order[1]), ChannelValue(v, order[2]), ChannelValue(v, order[3])];
  }

  lemma ChannelAt(order: seq<Channel>, s: seq<Byte>, k: nat)
    requires IsChannelOrder(order) && |s| == VertexSize && k < 4
    ensures ChannelValue(DecodeVertex(order, s), order[k]) == s[ColorOffset + k]
  {
    IndexOfPosition(order, k);
    var c := order[k];
    var v := DecodeVertex(order, s);
    assert ChannelValue(v, c) == s[ColorOffset + IndexOf(order, c)];
  }

  lemma {:induction false} DecodeEncodeU32s(s: seq<Byte>)
    requires |s| % 4 == 0
    ensures U32sToLe(LeToU32s(s)) == s
  {
    if s != [] {
      LeRoundTrip(s[..4]);
      DecodeEncodeU32s(s[4..]);
      assert s == s[..4] + s[4..];
    }
  }

  /** The square every object in the game uses: four vertices, two triangles.
      Its record is 8 + 4 * 12 + 6 * 4 = 80 bytes. */
  lemma UnitSquare(backend: Backend, vs: seq<Vertex>)
    requires |vs| == 4
    ensures var m := MeshData(vs, [0, 1, 2, 0, 2, 3]);
      && |Serialize(backend, m)| == 80
      && Parse(backend, Serialize(backend, m)) == Some(m)
  {
    var m := MeshData(vs, [0, 1, 2, 0, 2, 3]);
    SerializeLayout(backend, m);
    RoundTrip(backend, m);
  }
}
