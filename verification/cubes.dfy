/** The cube meshes. The colour cube of 06instancing1, uploaded again value
    for value by 06instancing3_uniform_buffer, is drawn once there and eight
    times here with a table of per-instance offsets. diffuseLighting's `Cube`
    class keeps positions, normals and indices in three separate arrays. */
module Cubes {
  import opened Util
  import opened Vectors
  import opened Layout

  /** Every coordinate of `p` is `h` or `-h`: `p` is a corner of the cube
      [-h, h]^3. */
  predicate Corner(p: Vec3, h: real)
  {
    (p.x == h || p.x == -h) && (p.y == h || p.y == -h) && (p.z == h || p.z == -h)
  }

  /** Corner `p` lies on the face of [-h, h]^3 whose outward normal is the
      signed unit axis `n`. */
  predicate OnFace(p: Vec3, n: Vec3, h: real)
  {
    Corner(p, h) && SignedUnitAxis(n) && Dot(n, p) == h
  }

  predicate Distinct4(a: Vec3, b: Vec3, c: Vec3, d: Vec3)
  {
    a != b && a != c && a != d && b != c && b != d && c != d
  }

  // ---------------------------------------------------------------------
  // The colour cube of 06instancing1 and 06instancing3_uniform_buffer

  /** One record of the colour cube's vertex table. */
  datatype ColouredVertex = ColouredVertex(position: Vec3, colour: Vec3)

  function V(x: real, y: real, z: real, r: real, g: real, b: real): ColouredVertex
  {
    ColouredVertex(Vec3(x, y, z), Vec3(r, g, b))
  }

  /** The vertex table, face by face: each record is a position and a
      colour. */
  const Face0 := [
    V( 1.0,  1.0,  1.0,   1.0, 0.0, 0.0),
    V(-1.0,  1.0,  1.0,   1.0, 0.0, 0.0),
    V( 1.0, -1.0,  1.0,   1.0, 0.0, 0.0),
    V(-1.0, -1.0,  1.0,   1.0, 0.0, 0.0)]

  const Face1 := [
    V( 1.0,  1.0,  1.0,   0.0, 1.0, 0.0),
    V( 1.0, -1.0,  1.0,   0.0, 1.0, 0.0),
    V( 1.0,  1.0, -1.0,   0.0, 1.0, 0.0),
    V( 1.0, -1.0, -1.0,   0.0, 1.0, 0.0)]

  const Face2 := [
    V( 1.0,  1.0,  1.0,   0.0, 0.0, 1.0),
    V( 1.0,  1.0, -1.0,   0.0, 0.0, 1.0),
    V(-1.0,  1.0,  1.0,   0.0, 0.0, 1.0),
    V(-1.0,  1.0, -1.0,   0.0, 0.0, 1.0)]

  const Face3 := [
    V( 1.0,  1.0, -1.0,   1.0, 1.0, 0.0),
    V( 1.0, -1.0, -1.0,   1.0, 1.0, 0.0),
    V(-1.0,  1.0, -1.0,   1.0, 1.0, 0.0),
    V(-1.0, -1.0, -1.0,   1.0, 1.0, 0.0)]

  const Face4 := [
    V(-1.0,  1.0,  1.0,   0.0, 1.0, 1.0),
    V(-1.0,  1.0, -1.0,   0.0, 1.0, 1.0),
    V(-1.0, -1.0,  1.0,   0.0, 1.0, 1.0),
    V(-1.0, -1.0, -1.0,   0.0, 1.0, 1.0)]

  const Face5 := [
    V( 1.0, -1.0,  1.0,   1.0, 0.0, 1.0),
    V(-1.0, -1.0,  1.0,   1.0, 0.0, 1.0),
    V( 1.0, -1.0, -1.0,   1.0, 0.0, 1.0),
    V(-1.0, -1.0, -1.0,   1.0, 0.0, 1.0)]

  /** Face `f` of the table. */
  function ColorCubeFace(f: nat): seq<ColouredVertex>
    requires f < 6
  {
    if f == 0 then Face0
    else if f == 1 then Face1
    else if f == 2 then Face2
    else if f == 3 then Face3
    else if f == 4 then Face4
    else Face5
  }

  lemma FaceLength(f: nat)
    requires f < 6
    ensures |ColorCubeFace(f)| == 4
  {
  }

  /** The records of the first `n` faces, one face after the other. */
  function FacesUpTo(n: nat): seq<ColouredVertex>
    requires n <= 6
  {
    if n == 0 then [] else FacesUpTo(n - 1) + ColorCubeFace(n - 1)
  }

  /** The vertex table as uploaded. */
  function ColorCube(): seq<ColouredVertex>
  {
    FacesUpTo(6)
  }

  /** Four records per face: record 4f + r of the table is record r of
      face f. */
  lemma {:induction false} FacesUpToLayout(n: nat)
    requires n <= 6
    ensures |FacesUpTo(n)| == 4 * n
    ensures forall f, r :: 0 <= f < n && 0 <= r < 4 ==> FacesUpTo(n)[4 * f + r] == ColorCubeFace(f)[r]
  {
    if n > 0 {
      var prev, last := FacesUpTo(n - 1), ColorCubeFace(n - 1);
      FacesUpToLayout(n - 1);
      assert |last| == 4 by { FaceLength(n - 1); }
      assert FacesUpTo(n) == prev + last;
      forall f, r | 0 <= f < n && 0 <= r < 4
        ensures FacesUpTo(n)[4 * f + r] == ColorCubeFace(f)[r]
      {
        if f < n - 1 {
          assert FacesUpTo(n)[4 * f + r] == prev[4 * f + r];
        } else {
          assert FacesUpTo(n)[4 * f + r] == last[r];
        }
      }
    }
  }

  /** The six floats of a record as uploaded: position, then colour. */
  function Record(v: ColouredVertex): seq<real>
  {
    [v.position.x, v.position.y, v.position.z, v.colour.x, v.colour.y, v.colour.z]
  }

  function Records(vs: seq<ColouredVertex>): (r: seq<seq<real>>)
    ensures |r| == |vs| && RecordsOfWidth(r, 6)
    ensures forall k :: 0 <= k < |vs| ==> r[k] == Record(vs[k])
  {
    seq(|vs|, k requires 0 <= k < |vs| => Record(vs[k]))
  }

  /** Position at byte 0 and colour at byte 12 of 24-byte records. */
  const ColorCubeFormat := Format(24, [Attribute(3, 0), Attribute(3, 12)])

  const ColorCubeIndices: seq<int> := [
     0,  1,  2,   2,  1,  3,
     4,  5,  6,   6,  5,  7,
     8,  9, 10,  10,  9, 11,
    12, 13, 14,  14, 13, 15,
    16, 17, 18,  18, 17, 19,
    20, 21, 22,  22, 21, 23]

  /** Both programs draw `6 * 6` indices. */
  const ColorCubeDrawCount: nat := 6 * 6

  /** The uploaded array holds 24 whole records, which the layout tiles:
      position at byte 0 and colour at byte 12 of every 24-byte record. */
  lemma ColorCubeRecords()
    ensures |Flatten(Records(ColorCube()))| == 24 * 6
    ensures Packed(ColorCubeFormat) && Stride(ColorCubeFormat) == 6 * FloatBytes
    ensures WholeRecords(|Flatten(Records(ColorCube()))|, ColorCubeFormat)
    ensures VertexCount(|Flatten(Records(ColorCube()))|, ColorCubeFormat) == |ColorCube()| == 24
  {
    ColorCubeSize();
    FlattenLength(Records(ColorCube()), 6);
    RecordsUpload(Records(ColorCube()), 6, ColorCubeFormat);
  }

  lemma ColorCubeSize()
    ensures |ColorCube()| == 24
  {
    FacesUpToLayout(6);
  }

  /** The index table is the strip split of six quads, face f being
      (4f, 4f+1, 4f+2), (4f+2, 4f+1, 4f+3). */
  lemma ColorCubeIndicesAreStrips()
    ensures ColorCubeIndices == FaceIndices(Strip, 6)
  {
    var s := ColorCubeIndices;
    QuadOfEntries(s, 0); QuadOfEntries(s, 1); QuadOfEntries(s, 2);
    QuadOfEntries(s, 3); QuadOfEntries(s, 4); QuadOfEntries(s, 5);
    forall f | 0 <= f < 6
      ensures QuadOf(s, f) == QuadIndices(Strip, 4 * f)
    {
      assert f == 0 || f == 1 || f == 2 || f == 3 || f == 4 || f == 5;
    }
    QuadsDetermine(Strip, s, 6);
  }

  /** The draw of `6 * 6` indices covers the whole index table and names
      only the 24 vertices uploaded. The table is built as `np.uint` and
      drawn as `GL_UNSIGNED_INT`, so the draw reads it as built exactly when
      `unsigned long` has 4 bytes. */
  lemma ColorCubeDraw(ulongBytes: nat)
    requires Platform(ulongBytes)
    ensures ColorCubeIndices == FaceIndices(Strip, 6)
    ensures ColorCubeDrawCount == |ColorCubeIndices|
    ensures DrawInBounds(ColorCubeIndices, ColorCubeDrawCount, |ColorCube()|)
    ensures DrawReadsTable(ColorCubeIndices, ULong, UnsignedInt, ulongBytes, ColorCubeDrawCount) <==> ulongBytes == 4
  {
    ColorCubeSize();
    ColorCubeIndicesAreStrips();
    FaceDrawInBounds(Strip, 6);
    assert ColorCubeIndices[..36] == ColorCubeIndices;
    DrawReadsTableIff(ColorCubeIndices, ULong, UnsignedInt, ulongBytes, 36);
  }

  /** Stored as `np.uint32`, the table is read as built on every platform. */
  lemma UInt32CubeDraw(ulongBytes: nat)
    requires Platform(ulongBytes)
    ensures DrawReadsTable(ColorCubeIndices, UInt32, UnsignedInt, ulongBytes, ColorCubeDrawCount)
  {
    ColorCubeIndicesAreStrips();
    FaceIndicesBelow(Strip, 6);
    DrawReadsTableIff(ColorCubeIndices, UInt32, UnsignedInt, ulongBytes, 36);
  }

  /** Outward normal of face `f` of the colour cube. */
  function ColorCubeFaceNormal(f: nat): Vec3
    requires f < 6
  {
    [Vec3(0.0, 0.0, 1.0), Vec3(1.0, 0.0, 0.0), Vec3(0.0, 1.0, 0.0),
     Vec3(0.0, 0.0, -1.0), Vec3(-1.0, 0.0, 0.0), Vec3(0.0, -1.0, 0.0)][f]
  }

  /** Four records form one face of [-h, h]^3 in one colour: four different
      corners on the face with outward normal `n`, sharing a colour. */
  predicate FaceSound(a: ColouredVertex, b: ColouredVertex, c: ColouredVertex, d: ColouredVertex,
                      n: Vec3, h: real)
  {
    && OnFace(a.position, n, h) && OnFace(b.position, n, h)
    && OnFace(c.position, n, h) && OnFace(d.position, n, h)
    && Distinct4(a.position, b.position, c.position, d.position)
    && a.colour == b.colour == c.colour == d.colour
  }

  predicate ColorCubeFaceSound(f: nat)
    requires f < 6
  {
    var q := ColorCubeFace(f);
    FaceSound(q[0], q[1], q[2], q[3], ColorCubeFaceNormal(f), 1.0)
  }

  lemma Face0Sound()
    ensures ColorCubeFaceSound(0)
  {
    assert ColorCubeFace(0) == Face0;
    assert FaceSound(Face0[0], Face0[1], Face0[2], Face0[3], ColorCubeFaceNormal(0), 1.0);
  }

  lemma Face1Sound()
    ensures ColorCubeFaceSound(1)
  {
    assert ColorCubeFace(1) == Face1;
    assert FaceSound(Face1[0], Face1[1], Face1[2], Face1[3], ColorCubeFaceNormal(1), 1.0);
  }

  lemma Face2Sound()
    ensures ColorCubeFaceSound(2)
  {
    assert ColorCubeFace(2) == Face2;
    assert FaceSound(Face2[0], Face2[1], Face2[2], Face2[3], ColorCubeFaceNormal(2), 1.0);
  }

  lemma Face3Sound()
    ensures ColorCubeFaceSound(3)
  {
    assert ColorCubeFace(3) == Face3;
    assert FaceSound(Face3[0], Face3[1], Face3[2], Face3[3], ColorCubeFaceNormal(3), 1.0);
  }

  lemma Face4Sound()
    ensures ColorCubeFaceSound(4)
  {
    assert ColorCubeFace(4) == Face4;
    assert FaceSound(Face4[0], Face4[1], Face4[2], Face4[3], ColorCubeFaceNormal(4), 1.0);
  }

  lemma Face5Sound()
    ensures ColorCubeFaceSound(5)
  {
    assert ColorCubeFace(5) == Face5;
    assert FaceSound(Face5[0], Face5[1], Face5[2], Face5[3], ColorCubeFaceNormal(5), 1.0);
  }

  /** Faces 0 .. n-1 are each sound. */
  predicate FacesSound(n: nat)
    requires n <= 6
  {
    n == 0 || (FacesSound(n - 1) && ColorCubeFaceSound(n - 1))
  }

  /** Every quad the index table draws is a whole face of [-1, 1]^3 in one
      colour: face f lies on the side with outward normal
      `ColorCubeFaceNormal(f)`. */
  lemma ColorCubeFacesSound()
    ensures FacesSound(6)
  {
    FirstFacesSound();
    Face5Sound();
  }

  lemma FirstFacesSound()
    ensures FacesSound(5)
  {
    Face0Sound(); Face1Sound(); Face2Sound(); Face3Sound(); Face4Sound();
  }

  /** The six faces are the six different sides of the cube, in six
      different colours. */
  lemma ColorCubeFacesDistinct()
    ensures forall f, g :: 0 <= f < g < 6 ==> ColorCubeFaceNormal(f) != ColorCubeFaceNormal(g)
    ensures forall f, g :: 0 <= f < g < 6 ==> ColorCubeFace(f)[0].colour != ColorCubeFace(g)[0].colour
  {
  }

  // ---------------------------------------------------------------------
  // Instance offsets of 06instancing3_uniform_buffer

  /** Eight vec4 offsets, read by the vertex shader as texels of an
      `GL_RGBA32F` buffer texture, one per instance; the float array
      uploaded is their flattening. */
  const Translations: seq<seq<real>> := [
    [ 2.0,  2.0,  2.0, 0.0],
    [ 2.0,  2.0, -2.0, 0.0],
    [ 2.0, -2.0,  2.0, 0.0],
    [ 2.0, -2.0, -2.0, 0.0],
    [-2.0,  2.0,  2.0, 0.0],
    [-2.0,  2.0, -2.0, 0.0],
    [-2.0, -2.0,  2.0, 0.0],
    [-2.0, -2.0, -2.0, 0.0]]

  /** `GL_RGBA32F`: four floats per texel. */
  const TexelFloats: nat := 4

  /** `glDrawElementsInstanced(…, 6 * 6, …, 8)`. */
  const InstanceCount: nat := 8

  /** Reference offset for instance `k`: each of x, y, z is -2 when its bit
      of k (bits 2, 1, 0) is set and +2 otherwise; w is 0. */
  function OffsetFor(k: nat): seq<real>
  {
    [Coordinate((k / 4) % 2), Coordinate((k / 2) % 2), Coordinate(k % 2), 0.0]
  }

  function Coordinate(bit: nat): real
  {
    if bit == 1 then -2.0 else 2.0
  }

  /** Reads an instance number back from its offset: bit 2, 1, 0 set where
      x, y, z is -2. */
  function InstanceOf(offset: seq<real>): nat
    requires |offset| >= 3
  {
    4 * Bit(offset[0]) + 2 * Bit(offset[1]) + Bit(offset[2])
  }

  function Bit(coordinate: real): nat
  {
    if coordinate == -2.0 then 1 else 0
  }

  /** The offset of each of the eight instances determines the instance. */
  lemma OffsetForDecodes(k: nat)
    requires k < InstanceCount
    ensures InstanceOf(OffsetFor(k)) == k
  {
    assert k == 4 * ((k / 4) % 2) + 2 * ((k / 2) % 2) + k % 2;
  }

  /** Texel k of the table is the reference offset of instance k. */
  lemma OffsetsMatch()
    ensures |Translations| == InstanceCount
    ensures forall k :: 0 <= k < InstanceCount ==> Translations[k] == OffsetFor(k)
  {
    assert Translations[0] == OffsetFor(0) && Translations[1] == OffsetFor(1);
    assert Translations[2] == OffsetFor(2) && Translations[3] == OffsetFor(3);
    assert Translations[4] == OffsetFor(4) && Translations[5] == OffsetFor(5);
    assert Translations[6] == OffsetFor(6) && Translations[7] == OffsetFor(7);
    forall k | 0 <= k < InstanceCount
      ensures Translations[k] == OffsetFor(k)
    {
      assert k == 0 || k == 1 || k == 2 || k == 3 || k == 4 || k == 5 || k == 6 || k == 7;
    }
  }

  /** The uploaded array holds exactly one texel per instance drawn, offset
      k is the bit pattern of k, and so the eight cubes are drawn at eight
      different places, the corners of [-2, 2]^3. */
  lemma InstanceOffsets()
    ensures |Flatten(Translations)| == TexelFloats * InstanceCount
    ensures forall k :: 0 <= k < InstanceCount ==> Translations[k] == OffsetFor(k)
    ensures forall k, l :: 0 <= k < l < InstanceCount ==> Translations[k] != Translations[l]
  {
    OffsetsMatch();
    assert RecordsOfWidth(Translations, TexelFloats);
    FlattenLength(Translations, TexelFloats);
    forall k, l | 0 <= k < l < InstanceCount
      ensures Translations[k] != Translations[l]
    {
      OffsetForDecodes(k);
      OffsetForDecodes(l);
    }
  }

  // ---------------------------------------------------------------------
  // diffuseLighting's Cube

  datatype CubeMesh = CubeMesh(vertex: seq<Vec3>, normal: seq<Vec3>, indices: seq<int>)

  /** `Cube.__init__` stores `self._width = 1` whatever `width` it is given,
      so the half-extent is always 1 / 2.0. */
  function CubeHalfExtent(width: real): (h: real)
  {
    1.0 / 2.0
  }

  /** Four copies of one normal: the rows of one face of the normals
      table. */
  function FaceNormals(n: Vec3): seq<Vec3>
  {
    [n, n, n, n]
  }

  /** The normals table: front, right, back, left, bottom, top. */
  function CubeNormals(): seq<Vec3>
  {
    FaceNormals(Vec3(0.0, 0.0, 1.0)) + FaceNormals(Vec3(1.0, 0.0, 0.0))
      + FaceNormals(Vec3(0.0, 0.0, -1.0)) + FaceNormals(Vec3(-1.0, 0.0, 0.0))
      + FaceNormals(Vec3(0.0, -1.0, 0.0)) + FaceNormals(Vec3(0.0, 1.0, 0.0))
  }

  const CubeIndices: seq<int> := [
     0,  1,  2,   0,  2,  3,
     4,  5,  6,   4,  6,  7,
     8,  9, 10,   8, 10, 11,
    12, 13, 14,  12, 14, 15,
    16, 17, 18,  16, 18, 19,
    20, 21, 22,  20, 22, 23]

  // The faces of the vertex table, four rows each, for half-extent h.

  function FrontFace(h: real): seq<Vec3>
  {
    [Vec3(-h, -h, h), Vec3(h, -h, h), Vec3(h, h, h), Vec3(-h, h, h)]
  }

  function RightFace(h: real): seq<Vec3>
  {
    [Vec3(h, -h, h), Vec3(h, -h, -h), Vec3(h, h, -h), Vec3(h, h, h)]
  }

  function BackFace(h: real): seq<Vec3>
  {
    [Vec3(-h, -h, -h), Vec3(-h, h, -h), Vec3(h, h, -h), Vec3(h, -h, -h)]
  }

  function LeftFace(h: real): seq<Vec3>
  {
    [Vec3(-h, -h, h), Vec3(-h, h, h), Vec3(-h, h, -h), Vec3(-h, -h, -h)]
  }

  /** The four rows the table labels as the bottom face: they all lie at
      y = +h, the top of the cube. */
  function TopFace(h: real): seq<Vec3>
  {
    [Vec3(-h, h, h), Vec3(h, h, h), Vec3(h, h, -h), Vec3(-h, h, -h)]
  }

  /** The bottom face the normals and indices expect at rows 16 to 19. */
  function BottomFace(h: real): seq<Vec3>
  {
    [Vec3(-h, -h, h), Vec3(-h, -h, -h), Vec3(h, -h, -h), Vec3(h, -h, h)]
  }

  /** The vertex table as written: front, right, back and left, then the
      rows labelled "bottom" but placed at y = +h; no sixth face follows. */
  function CubeAsWritten(width: real): CubeMesh
  {
    var h := CubeHalfExtent(width);
    CubeMesh(FrontFace(h) + RightFace(h) + BackFace(h) + LeftFace(h) + TopFace(h),
             CubeNormals(), CubeIndices)
  }

  /** The vertex table as evidently intended: 24 rows in the order of the
      normals, a bottom face at y = -h and then the top face. */
  function Cube(width: real): CubeMesh
  {
    var h := CubeHalfExtent(width);
    CubeMesh(FrontFace(h) + RightFace(h) + BackFace(h) + LeftFace(h) + BottomFace(h) + TopFace(h),
             CubeNormals(), CubeIndices)
  }

  /** The cube does not depend on the width it is given. */
  lemma CubeIgnoresWidth(w1: real, w2: real)
    ensures CubeHalfExtent(w1) == CubeHalfExtent(w2) == 0.5
    ensures CubeAsWritten(w1) == CubeAsWritten(w2)
    ensures Cube(w1) == Cube(w2)
  {
  }

  /** The index table is the fan split of six quads, face f being
      (4f, 4f+1, 4f+2), (4f, 4f+2, 4f+3). */
  lemma CubeIndicesAreFans()
    ensures CubeIndices == FaceIndices(Fan, 6)
  {
    CubeQuadsAreFans();
    QuadsDetermine(Fan, CubeIndices, 6);
  }

  lemma CubeQuadsAreFans()
    ensures |CubeIndices| == 36
    ensures forall f :: 0 <= f < 6 ==> QuadOf(CubeIndices, f) == QuadIndices(Fan, 4 * f)
  {
    var s := CubeIndices;
    QuadOfEntries(s, 0); QuadOfEntries(s, 1); QuadOfEntries(s, 2);
    QuadOfEntries(s, 3); QuadOfEntries(s, 4); QuadOfEntries(s, 5);
    forall f | 0 <= f < 6
      ensures QuadOf(s, f) == QuadIndices(Fan, 4 * f)
    {
      assert f == 0 || f == 1 || f == 2 || f == 3 || f == 4 || f == 5;
    }
  }

  /** `render` draws all 36 indices, the fan split of six quads; every
      index is below 24, the number of normals, and both tables share it. */
  lemma CubeIndexTable(width: real)
    ensures CubeAsWritten(width).indices == Cube(width).indices == FaceIndices(Fan, 6)
    ensures |CubeIndices| == 36
    ensures DrawInBounds(CubeIndices, |CubeIndices|, |CubeNormals()|)
  {
    CubeIndicesAreFans();
    FaceDrawInBounds(Fan, 6);
  }

  /** As written, the draw of all 36 indices reads vertex rows 20 to 23,
      past the 20-row vertex table, and rows 16 to 19 sit on the top face
      while their normals point down. */
  lemma CubeAsWrittenOutOfRange(width: real)
    ensures |CubeAsWritten(width).vertex| == 20
    ensures CubeAsWritten(width).indices[30] == 20
    ensures !DrawInBounds(CubeAsWritten(width).indices, 36, |CubeAsWritten(width).vertex|)
    ensures forall k :: 16 <= k < 20 ==>
              Dot(CubeAsWritten(width).normal[k], CubeAsWritten(width).vertex[k]) == -CubeHalfExtent(width)
  {
    var m := CubeAsWritten(width);
    assert m.indices[..36][30] == 20;
  }

  /** Row k of `vs` is a corner on the face of [-h, h]^3 that row k of
      `ns` points out of, for every row. */
  predicate RowsOnFaces(vs: seq<Vec3>, ns: seq<Vec3>, h: real)
  {
    |vs| == |ns| && forall k :: 0 <= k < |vs| ==> OnFace(vs[k], ns[k], h)
  }

  lemma RowsOnFacesAppend(a: seq<Vec3>, na: seq<Vec3>, b: seq<Vec3>, nb: seq<Vec3>, h: real)
    requires RowsOnFaces(a, na, h) && RowsOnFaces(b, nb, h)
    ensures RowsOnFaces(a + b, na + nb, h)
  {
    forall k | 0 <= k < |a + b|
      ensures OnFace((a + b)[k], (na + nb)[k], h)
    {
      if k >= |a| {
        assert (a + b)[k] == b[k - |a|] && (na + nb)[k] == nb[k - |a|];
      }
    }
  }

  /** Every face of the corrected table lies on the side its normals point
      out of. */
  lemma CubeFacesOnTheirSides(h: real)
    ensures RowsOnFaces(FrontFace(h), FaceNormals(Vec3(0.0, 0.0, 1.0)), h)
    ensures RowsOnFaces(RightFace(h), FaceNormals(Vec3(1.0, 0.0, 0.0)), h)
    ensures RowsOnFaces(BackFace(h), FaceNormals(Vec3(0.0, 0.0, -1.0)), h)
    ensures RowsOnFaces(LeftFace(h), FaceNormals(Vec3(-1.0, 0.0, 0.0)), h)
    ensures RowsOnFaces(BottomFace(h), FaceNormals(Vec3(0.0, -1.0, 0.0)), h)
    ensures RowsOnFaces(TopFace(h), FaceNormals(Vec3(0.0, 1.0, 0.0)), h)
  {
  }

  /** Corrected, the table has a row for every normal, the draw stays
      inside it, and every vertex is a corner on the face its normal points
      out of. */
  lemma CubeSound(width: real)
    ensures |Cube(width).vertex| == |Cube(width).normal| == 24
    ensures DrawInBounds(Cube(width).indices, 36, |Cube(width).vertex|)
    ensures forall k :: 0 <= k < 24 ==>
              OnFace(Cube(width).vertex[k], Cube(width).normal[k], CubeHalfExtent(width))
  {
    var h := CubeHalfExtent(width);
    CubeFacesOnTheirSides(h);
    var n0, n1, n2 := FaceNormals(Vec3(0.0, 0.0, 1.0)), FaceNormals(Vec3(1.0, 0.0, 0.0)), FaceNormals(Vec3(0.0, 0.0, -1.0));
    var n3, n4, n5 := FaceNormals(Vec3(-1.0, 0.0, 0.0)), FaceNormals(Vec3(0.0, -1.0, 0.0)), FaceNormals(Vec3(0.0, 1.0, 0.0));
    RowsOnFacesAppend(FrontFace(h), n0, RightFace(h), n1, h);
    RowsOnFacesAppend(FrontFace(h) + RightFace(h), n0 + n1, BackFace(h), n2, h);
    RowsOnFacesAppend(FrontFace(h) + RightFace(h) + BackFace(h), n0 + n1 + n2, LeftFace(h), n3, h);
    RowsOnFacesAppend(FrontFace(h) + RightFace(h) + BackFace(h) + LeftFace(h), n0 + n1 + n2 + n3,
                      BottomFace(h), n4, h);
    RowsOnFacesAppend(FrontFace(h) + RightFace(h) + BackFace(h) + LeftFace(h) + BottomFace(h),
                      n0 + n1 + n2 + n3 + n4, TopFace(h), n5, h);
    CubeIndexTable(width);
  }
}
