/** The single-quad meshes: the coloured full-screen quad of 02indexed_vbo,
    the textured full-screen quad of 03texture (uploaded again, value for
    value, as the post-processing quad of 06instancing1), and the unit quad
    imageProcess draws its picture on. Each is a table of float records,
    the attribute layout read from it, an index table and the count passed
    to `glDrawElements`. */
module Quads {
  import opened Util
  import opened Layout

  /** A vertex table of records, uploaded flat, with its attribute layout,
      an index table with the numpy type it is stored as, the index type
      the draw names, and the number of indices drawn. */
  datatype Mesh = Mesh(records: seq<seq<real>>, format: Format, indices: seq<int>,
                       dtype: IndexDtype, indexType: IndexType, drawCount: nat)

  /** Records of `width` floats, a layout that tiles them exactly, and an
      index table whose drawn part names only records. */
  predicate WellFormed(m: Mesh, width: nat)
  {
    && width > 0
    && RecordsOfWidth(m.records, width)
    && Packed(m.format)
    && Stride(m.format) == width * FloatBytes
    && DrawInBounds(m.indices, m.drawCount, |m.records|)
  }

  /** A well-formed mesh uploads whole records, GL reads back one vertex
      per record, and every index drawn names one of them. */
  lemma WellFormedUpload(m: Mesh, width: nat)
    requires WellFormed(m, width)
    ensures WholeRecords(|Flatten(m.records)|, m.format)
    ensures VertexCount(|Flatten(m.records)|, m.format) == |m.records|
    ensures DrawInBounds(m.indices, m.drawCount, VertexCount(|Flatten(m.records)|, m.format))
  {
    RecordsUpload(m.records, width, m.format);
  }

  /** Screen position of vertex `v`: the first two floats of its record
      (0 outside the table). */
  function PosX(m: Mesh, v: int): real
  {
    if 0 <= v < |m.records| && |m.records[v]| >= 2 then m.records[v][0] else 0.0
  }

  function PosY(m: Mesh, v: int): real
  {
    if 0 <= v < |m.records| && |m.records[v]| >= 2 then m.records[v][1] else 0.0
  }

  /** Twice the signed area of triangle `t` of the index table. */
  function TwiceArea(m: Mesh, t: nat): real
  {
    if 3 * t + 2 < |m.indices| then
      var i0, i1, i2 := m.indices[3 * t], m.indices[3 * t + 1], m.indices[3 * t + 2];
      Orientation(PosX(m, i0), PosY(m, i0), PosX(m, i1), PosY(m, i1), PosX(m, i2), PosY(m, i2))
    else 0.0
  }

  /** On a platform whose `unsigned long` has `ulongBytes` bytes, the draw
      reads exactly the first `drawCount` entries of the index table. */
  predicate DrawsTable(m: Mesh, ulongBytes: nat)
  {
    DrawReadsTable(m.indices, m.dtype, m.indexType, ulongBytes, m.drawCount)
  }

  /** Vertex `v` sits on a corner of the square [lo, hi] x [lo, hi]. */
  predicate OnCorner(m: Mesh, v: int, lo: real, hi: real)
  {
    (PosX(m, v) == lo || PosX(m, v) == hi) && (PosY(m, v) == lo || PosY(m, v) == hi)
  }

  /** Vertices 0..3 sit at four different places. */
  predicate DistinctPositions(m: Mesh)
  {
    forall u, v :: 0 <= u < v < 4 ==> PosX(m, u) != PosX(m, v) || PosY(m, u) != PosY(m, v)
  }

  /** The vertices both triangles use. */
  function Shared(m: Mesh): set<int>
    requires |m.indices| == 6
  {
    Triangle(m.indices, 0) * Triangle(m.indices, 1)
  }

  /** The two triangles share exactly two vertices, and those differ in
      both coordinates: a diagonal of the square, not a side. */
  predicate SharesDiagonal(m: Mesh)
    requires |m.indices| == 6
  {
    && |Shared(m)| == 2
    && forall a, b :: a in Shared(m) && b in Shared(m) && a != b ==>
         PosX(m, a) != PosX(m, b) && PosY(m, a) != PosY(m, b)
  }

  /** The two triangles cover the square [lo, hi] x [lo, hi] without
      overlap: vertices 0..3 are its four corners, the triangles together
      use all four, share one diagonal and each adds one of the two other
      corners, so they lie on either side of the diagonal. Both are
      counter-clockwise, front-facing under GL's default winding. */
  predicate TilesSquare(m: Mesh, lo: real, hi: real)
  {
    && |m.indices| == 6
    && OnCorner(m, 0, lo, hi) && OnCorner(m, 1, lo, hi)
    && OnCorner(m, 2, lo, hi) && OnCorner(m, 3, lo, hi)
    && DistinctPositions(m)
    && Triangle(m.indices, 0) + Triangle(m.indices, 1) == {0, 1, 2, 3}
    && SharesDiagonal(m)
    && TwiceArea(m, 0) > 0.0 && TwiceArea(m, 1) > 0.0
  }

  /** Vertex `v` has texture coordinates (floats 3 and 4 of its record)
      ((x + 1) / 2, (y + 1) / 2): the screen position rescaled from
      [-1, 1] to [0, 1]. */
  predicate UVFollowsPosition(m: Mesh, v: int)
  {
    && 0 <= v < |m.records| && |m.records[v]| >= 5
    && m.records[v][3] == (PosX(m, v) + 1.0) / 2.0
    && m.records[v][4] == (PosY(m, v) + 1.0) / 2.0
  }

  /** Every vertex's texture coordinates follow its screen position, so the
      texture appears upright and fills the quad. */
  predicate TextureFollowsScreen(m: Mesh)
  {
    && UVFollowsPosition(m, 0) && UVFollowsPosition(m, 1)
    && UVFollowsPosition(m, 2) && UVFollowsPosition(m, 3)
  }

  /** 02indexed_vbo: position and colour per vertex, six floats apart. */
  const ColoredQuad := Mesh(
    [[ 1.0,  1.0, 0.0,  1.0, 0.0, 0.0],
     [-1.0,  1.0, 0.0,  0.0, 1.0, 0.0],
     [ 1.0, -1.0, 0.0,  0.0, 0.0, 1.0],
     [-1.0, -1.0, 0.0,  1.0, 0.0, 0.0]],
    Format(24, [Attribute(3, 0), Attribute(3, 12)]),
    [0, 1, 2, 2, 1, 3], ULong, UnsignedInt,
    6)

  /** 03texture: position and texture coordinate per vertex, five floats
      apart. */
  const TexturedQuad := Mesh(
    [[ 1.0,  1.0, 0.0,  1.0, 1.0],
     [-1.0,  1.0, 0.0,  0.0, 1.0],
     [ 1.0, -1.0, 0.0,  1.0, 0.0],
     [-1.0, -1.0, 0.0,  0.0, 0.0]],
    Format(20, [Attribute(3, 0), Attribute(2, 12)]),
    [0, 1, 2, 2, 1, 3], ULong, UnsignedInt,
    6)

  /** 06instancing1's post-processing quad, drawn over the screen when FXAA
      is on. */
  const PostQuad := Mesh(
    [[ 1.0,  1.0, 0.0,  1.0, 1.0],
     [-1.0,  1.0, 0.0,  0.0, 1.0],
     [ 1.0, -1.0, 0.0,  1.0, 0.0],
     [-1.0, -1.0, 0.0,  0.0, 0.0]],
    Format(20, [Attribute(3, 0), Attribute(2, 12)]),
    [0, 1, 2, 2, 1, 3], ULong, UnsignedInt,
    6)

  /** imageProcess: bare 2-D positions with stride 0 (tightly packed), fan
      indices, and `self.indices.size` indices drawn. */
  const ImageQuad := Mesh(
    [[0.0, 0.0],
     [1.0, 0.0],
     [1.0, 1.0],
     [0.0, 1.0]],
    Format(0, [Attribute(2, 0)]),
    [0, 1, 2, 0, 2, 3], UShort, UnsignedShort,
    6)

  /** The strip table 0, 1, 2, 2, 1, 3 stored as `np.uint` and drawn as
      six `GL_UNSIGNED_INT` indices is read as it stands exactly when
      `unsigned long` has 4 bytes. With 8 bytes the draw reads
      0, 0, 1, 0, 2, 0: both triangles repeat a corner, so nothing shows. */
  lemma ULongQuadDraw(m: Mesh, ulongBytes: nat)
    requires Platform(ulongBytes)
    requires m.indices == [0, 1, 2, 2, 1, 3] && m.drawCount == 6
    requires m.dtype == ULong && m.indexType == UnsignedInt
    ensures DrawsTable(m, ulongBytes) <==> ulongBytes == 4
    ensures ulongBytes == 8 ==>
              |ReadIndices(m.indices, m.dtype, m.indexType, ulongBytes)| == 12 &&
              var read := ReadIndices(m.indices, m.dtype, m.indexType, ulongBytes)[..6];
              read == [0, 0, 1, 0, 2, 0] && |Triangle(read, 0)| == 2 && |Triangle(read, 1)| == 2
  {
    DrawReadsTableIff(m.indices, m.dtype, m.indexType, ulongBytes, 6);
    if ulongBytes == 8 {
      var values := m.indices;
      var w := ReadIndices(values, m.dtype, m.indexType, ulongBytes);
      assert w == Widen(values, 2);
      WidenLength(values, 2);
      WidenAt(values, 2, 0, 0); WidenAt(values, 2, 0, 1);
      WidenAt(values, 2, 1, 0); WidenAt(values, 2, 1, 1);
      WidenAt(values, 2, 2, 0); WidenAt(values, 2, 2, 1);
      var read := w[..6];
      assert read == [0, 0, 1, 0, 2, 0];
      assert Triangle(read, 0) == {0, 1};
      assert Triangle(read, 1) == {0, 2};
    }
  }

  /** The same tables stored as `np.uint32`, four bytes on every platform,
      are read exactly as built. */
  lemma UInt32QuadsDraw(ulongBytes: nat)
    requires Platform(ulongBytes)
    ensures DrawsTable(ColoredQuad.(dtype := UInt32), ulongBytes)
    ensures DrawsTable(TexturedQuad.(dtype := UInt32), ulongBytes)
    ensures DrawsTable(PostQuad.(dtype := UInt32), ulongBytes)
  {
    DrawReadsTableIff(ColoredQuad.indices, UInt32, UnsignedInt, ulongBytes, 6);
  }

  /** 02indexed_vbo: four records of six floats tiled by the 24-byte layout,
      the strip split of them, and a draw of all six indices, which reads
      the `np.uint` table as built exactly when `unsigned long` has 4 bytes. */
  lemma ColoredQuadLayout(ulongBytes: nat)
    requires Platform(ulongBytes)
    ensures WellFormed(ColoredQuad, 6) && |ColoredQuad.records| == 4
    ensures ColoredQuad.indices == FaceIndices(Strip, 1)
    ensures ColoredQuad.drawCount == |ColoredQuad.indices|
    ensures DrawsTable(ColoredQuad, ulongBytes) <==> ulongBytes == 4
  {
    FaceDrawInBounds(Strip, 1);
    ULongQuadDraw(ColoredQuad, ulongBytes);
  }

  /** The coloured quad's two triangles tile the clip-space square
      [-1, 1] x [-1, 1], the whole viewport. */
  lemma ColoredQuadCovers()
    ensures TilesSquare(ColoredQuad, -1.0, 1.0)
  {
    QuadSplitCovers(Strip, 0);
    assert Shared(ColoredQuad) == {1, 2};
  }

  /** Drawing the first triangle twice does not tile the square: corner 3
      is never used. */
  lemma RepeatedTriangleDoesNotTile()
    ensures !TilesSquare(ColoredQuad.(indices := [0, 1, 2, 0, 1, 2]), -1.0, 1.0)
  {
    var m := ColoredQuad.(indices := [0, 1, 2, 0, 1, 2]);
    assert 3 !in Triangle(m.indices, 0) + Triangle(m.indices, 1);
  }

  /** 03texture: four records of five floats tiled by the 20-byte layout,
      the strip split of them, and a draw of all six indices, which reads
      the `np.uint` table as built exactly when `unsigned long` has 4 bytes. */
  lemma TexturedQuadLayout(ulongBytes: nat)
    requires Platform(ulongBytes)
    ensures WellFormed(TexturedQuad, 5) && |TexturedQuad.records| == 4
    ensures TexturedQuad.indices == FaceIndices(Strip, 1)
    ensures TexturedQuad.drawCount == |TexturedQuad.indices|
    ensures DrawsTable(TexturedQuad, ulongBytes) <==> ulongBytes == 4
  {
    FaceDrawInBounds(Strip, 1);
    ULongQuadDraw(TexturedQuad, ulongBytes);
  }

  /** The textured quad's two triangles tile the whole viewport. */
  lemma TexturedQuadCovers()
    ensures TilesSquare(TexturedQuad, -1.0, 1.0)
  {
    QuadSplitCovers(Strip, 0);
    assert Shared(TexturedQuad) == {1, 2};
  }

  /** The textured quad's texture coordinates follow the screen position,
      so the checkerboard fills the viewport upright. */
  lemma TexturedQuadUpright()
    ensures TextureFollowsScreen(TexturedQuad)
  {
  }

  /** 06instancing1's post-processing quad: four records of five floats
      tiled by the 20-byte layout, the strip split of them, and a draw of
      all six indices, which reads the `np.uint` table as built exactly when
      `unsigned long` has 4 bytes. */
  lemma PostQuadLayout(ulongBytes: nat)
    requires Platform(ulongBytes)
    ensures WellFormed(PostQuad, 5) && |PostQuad.records| == 4
    ensures PostQuad.indices == FaceIndices(Strip, 1)
    ensures PostQuad.drawCount == |PostQuad.indices|
    ensures DrawsTable(PostQuad, ulongBytes) <==> ulongBytes == 4
  {
    FaceDrawInBounds(Strip, 1);
    ULongQuadDraw(PostQuad, ulongBytes);
  }

  /** The post-processing quad's two triangles tile the whole viewport, so
      the FXAA pass writes every pixel. */
  lemma PostQuadCovers()
    ensures TilesSquare(PostQuad, -1.0, 1.0)
  {
    QuadSplitCovers(Strip, 0);
    assert Shared(PostQuad) == {1, 2};
  }

  /** The post-processing quad samples the offscreen image upright: each
      screen position reads the texel at the same place. */
  lemma PostQuadUpright()
    ensures TextureFollowsScreen(PostQuad)
  {
  }

  /** imageProcess: a stride of 0 reads tightly packed 8-byte records, which
      the two-float records fill; the indices are the fan split of the four
      vertices, and the draw reads all `self.indices.size` of them: the
      `np.ushort` table drawn as `GL_UNSIGNED_SHORT` is read as built on
      every platform. */
  lemma ImageQuadLayout(ulongBytes: nat)
    requires Platform(ulongBytes)
    ensures Stride(ImageQuad.format) == 8
    ensures WellFormed(ImageQuad, 2) && |ImageQuad.records| == 4
    ensures ImageQuad.indices == FaceIndices(Fan, 1)
    ensures ImageQuad.drawCount == |ImageQuad.indices|
    ensures DrawsTable(ImageQuad, ulongBytes)
  {
    FaceDrawInBounds(Fan, 1);
    DrawReadsTableIff(ImageQuad.indices, UShort, UnsignedShort, ulongBytes, 6);
  }

  /** The image quad's two triangles tile the unit square [0, 1] x [0, 1]. */
  lemma ImageQuadCovers()
    ensures TilesSquare(ImageQuad, 0.0, 1.0)
  {
    QuadSplitCovers(Fan, 0);
    assert Shared(ImageQuad) == {0, 2};
  }
}
