/** What the vertex-table examples hand to OpenGL, stated without OpenGL:
    interleaved float records read through `glVertexAttribPointer`, index
    tables that split quads into two triangles, and indexed draws that must
    stay inside the vertex table. */
module Layout {
  import opened Util

  /** Size of a `GL_FLOAT` / `np.float32`. */
  const FloatBytes: nat := 4

  /** One `glVertexAttribPointer(_, components, GL_FLOAT, GL_FALSE, stride, offset)`
      call, offset in bytes. The attribute location plays no part here. */
  datatype Attribute = Attribute(components: nat, offset: nat)

  /** The stride argument shared by a buffer's attributes (0 meaning tightly
      packed) and the attributes in order of increasing offset. */
  datatype Format = Format(stride: nat, attributes: seq<Attribute>)

  function Bytes(a: Attribute): nat
  {
    FloatBytes * a.components
  }

  /** First byte past attribute `a` within a record. */
  function End(a: Attribute): nat
  {
    a.offset + Bytes(a)
  }

  function TotalBytes(attrs: seq<Attribute>): nat
  {
    if |attrs| == 0 then 0 else Bytes(attrs[0]) + TotalBytes(attrs[1..])
  }

  /** Distance between consecutive records as GL reads them: the stride
      given, or the packed record size when the stride is 0. */
  function Stride(f: Format): nat
  {
    if f.stride == 0 then TotalBytes(f.attributes) else f.stride
  }

  /** The attributes lie back to back from byte `start`, in order, and the
      last one ends exactly at byte `stride`. */
  predicate PackedFrom(attrs: seq<Attribute>, start: nat, stride: nat)
  {
    if |attrs| == 0 then start == stride
    else attrs[0].offset == start && PackedFrom(attrs[1..], End(attrs[0]), stride)
  }

  /** The attributes of `f` tile its records exactly. */
  predicate Packed(f: Format)
  {
    PackedFrom(f.attributes, 0, Stride(f))
  }

  /** Byte `b` of a record is read by attribute `a`. */
  predicate Covers(a: Attribute, b: int)
  {
    a.offset <= b < End(a)
  }

  /** Some attribute of `attrs` reads byte `b`. */
  predicate CoveredBy(attrs: seq<Attribute>, b: int)
  {
    exists k :: 0 <= k < |attrs| && Covers(attrs[k], b)
  }

  /** Back-to-back attributes read every byte of the record from `start` to
      `stride` exactly once, and none reads past the record. */
  lemma {:induction false} PackedFromTiles(attrs: seq<Attribute>, start: nat, stride: nat)
    requires PackedFrom(attrs, start, stride)
    ensures forall k :: 0 <= k < |attrs| ==> start <= attrs[k].offset && End(attrs[k]) <= stride
    ensures forall b :: start <= b < stride ==> CoveredBy(attrs, b)
    ensures forall k, l, b :: 0 <= k < l < |attrs| && Covers(attrs[k], b) ==> !Covers(attrs[l], b)
  {
    if |attrs| > 0 {
      var rest := attrs[1..];
      PackedFromTiles(rest, End(attrs[0]), stride);
      assert forall k :: 1 <= k < |attrs| ==> attrs[k] == rest[k - 1];
      forall b | start <= b < stride
        ensures CoveredBy(attrs, b)
      {
        if b >= End(attrs[0]) {
          assert CoveredBy(rest, b);
          var k' :| 0 <= k' < |rest| && Covers(rest[k'], b);
          assert Covers(attrs[k' + 1], b);
        } else {
          assert Covers(attrs[0], b);
        }
      }
    }
  }

  /** A packed format reads every byte of a record exactly once. */
  lemma PackedTiles(f: Format)
    requires Packed(f)
    ensures forall k :: 0 <= k < |f.attributes| ==> End(f.attributes[k]) <= Stride(f)
    ensures forall b :: 0 <= b < Stride(f) ==> CoveredBy(f.attributes, b)
    ensures forall k, l, b :: 0 <= k < l < |f.attributes| && Covers(f.attributes[k], b) ==>
              !Covers(f.attributes[l], b)
  {
    PackedFromTiles(f.attributes, 0, Stride(f));
  }

  /** A table of `floats` floats holds a whole number of records. */
  predicate WholeRecords(floats: nat, f: Format)
  {
    Stride(f) > 0 && (floats * FloatBytes) % Stride(f) == 0
  }

  /** Number of records (vertices) in a table of `floats` floats. */
  function VertexCount(floats: nat, f: Format): nat
    requires Stride(f) > 0
  {
    (floats * FloatBytes) / Stride(f)
  }

  /** For a packed format over whole records, every attribute read of every
      vertex stays inside the uploaded buffer of `floats * 4` bytes. */
  lemma AttributeReadsInBuffer(f: Format, floats: nat, v: nat, k: nat)
    requires Packed(f) && WholeRecords(floats, f)
    requires v < VertexCount(floats, f) && k < |f.attributes|
    ensures v * Stride(f) + End(f.attributes[k]) <= floats * FloatBytes
  {
    PackedTiles(f);
    var n := VertexCount(floats, f);
    var s := Stride(f);
    assert n * s == floats * FloatBytes;
    MulSucc(v, s);
    MulMono(v + 1, n, s);
  }

  /** The float array uploaded for a table of records: the records one
      after the other. */
  function Flatten(records: seq<seq<real>>): seq<real>
  {
    if |records| == 0 then [] else records[0] + Flatten(records[1..])
  }

  /** Every record holds `width` floats. */
  predicate RecordsOfWidth(records: seq<seq<real>>, width: nat)
  {
    forall v :: 0 <= v < |records| ==> |records[v]| == width
  }

  /** Records of `width` floats flatten to `width` floats each. */
  lemma {:induction false} FlattenLength(records: seq<seq<real>>, width: nat)
    requires RecordsOfWidth(records, width)
    ensures |Flatten(records)| == |records| * width
  {
    if |records| > 0 {
      FlattenLength(records[1..], width);
      MulSucc(|records| - 1, width);
    }
  }

  /** Float c of record v sits at v*width + c of the flattened array. */
  lemma {:induction false} FlattenAt(records: seq<seq<real>>, width: nat, v: nat, c: nat)
    requires RecordsOfWidth(records, width)
    requires v < |records| && c < width
    ensures v * width + c < |Flatten(records)|
    ensures Flatten(records)[v * width + c] == records[v][c]
  {
    var rest := records[1..];
    FlattenLength(rest, width);
    assert Flatten(records) == records[0] + Flatten(rest);
    if v > 0 {
      FlattenAt(rest, width, v - 1, c);
      MulSucc(v - 1, width);
    }
  }

  /** A table of records of `width` floats, uploaded flat, holds whole
      records for a layout whose stride is the record size, and GL reads
      back exactly one vertex per record. */
  lemma RecordsUpload(records: seq<seq<real>>, width: nat, f: Format)
    requires RecordsOfWidth(records, width)
    requires width > 0 && Stride(f) == width * FloatBytes
    ensures WholeRecords(|Flatten(records)|, f)
    ensures VertexCount(|Flatten(records)|, f) == |records|
  {
    FlattenLength(records, width);
    var n, s := |records|, width * FloatBytes;
    assert |Flatten(records)| * FloatBytes == n * s;
    DivModOf(n, s, 0);
  }

  // ---------------------------------------------------------------------
  // Splitting quads into triangles

  /** The two ways the examples split four consecutive vertices b..b+3 into
      two triangles: `Strip` is (b, b+1, b+2), (b+2, b+1, b+3), used by the
      OpenGL-Examples scripts; `Fan` is (b, b+1, b+2), (b, b+2, b+3), used by
      imageProcess and diffuseLighting. */
  datatype Split = Strip | Fan

  function QuadIndices(split: Split, b: nat): seq<int>
  {
    match split
    case Strip => [b, b + 1, b + 2, b + 2, b + 1, b + 3]
    case Fan => [b, b + 1, b + 2, b, b + 2, b + 3]
  }

  /** The corners of triangle `t` of an index table. */
  function Triangle(s: seq<int>, t: nat): set<int>
    requires 3 * t + 2 < |s|
  {
    {s[3 * t], s[3 * t + 1], s[3 * t + 2]}
  }

  /** The diagonal the two triangles of a split share. */
  function Diagonal(split: Split, b: nat): set<int>
  {
    match split
    case Strip => {b + 1, b + 2}
    case Fan => {b, b + 2}
  }

  /** Either split gives two triangles of three different corners that
      share exactly the split's diagonal and together use all four vertices. */
  lemma QuadSplitCovers(split: Split, b: nat)
    ensures var q := QuadIndices(split, b);
            && |Triangle(q, 0)| == 3 && |Triangle(q, 1)| == 3
            && Triangle(q, 0) * Triangle(q, 1) == Diagonal(split, b)
            && Triangle(q, 0) + Triangle(q, 1) == {b, b + 1, b + 2, b + 3}
  {
    var q := QuadIndices(split, b);
    assert Triangle(q, 0) == {b, b + 1, b + 2};
    match split
    case Strip =>
      assert Triangle(q, 1) == {b + 1, b + 2, b + 3};
    case Fan =>
      assert Triangle(q, 1) == {b, b + 2, b + 3};
  }

  /** The index table of `faces` quads, quad f made of vertices 4f..4f+3. */
  function FaceIndices(split: Split, faces: nat): seq<int>
  {
    if faces == 0 then [] else FaceIndices(split, faces - 1) + QuadIndices(split, 4 * (faces - 1))
  }

  /** The six entries of quad `f` in an index table. */
  function QuadOf(s: seq<int>, f: nat): seq<int>
    requires 6 * f + 6 <= |s|
  {
    s[6 * f .. 6 * f + 6]
  }

  lemma QuadOfEntries(s: seq<int>, f: nat)
    requires 6 * f + 6 <= |s|
    ensures QuadOf(s, f) == [s[6 * f], s[6 * f + 1], s[6 * f + 2], s[6 * f + 3], s[6 * f + 4], s[6 * f + 5]]
  {
  }

  /** `faces` quads give 6 * faces indices. */
  lemma {:induction false} FaceIndicesLength(split: Split, faces: nat)
    ensures |FaceIndices(split, faces)| == 6 * faces
  {
    if faces > 0 {
      FaceIndicesLength(split, faces - 1);
    }
  }

  /** The entries of quad f are the split of vertices 4f..4f+3. */
  lemma {:induction false} FaceIndicesAt(split: Split, faces: nat, f: nat)
    requires f < faces
    ensures 6 * f + 6 <= |FaceIndices(split, faces)|
    ensures QuadOf(FaceIndices(split, faces), f) == QuadIndices(split, 4 * f)
  {
    var prev, q := FaceIndices(split, faces - 1), QuadIndices(split, 4 * (faces - 1));
    var s := prev + q;
    FaceIndicesLength(split, faces - 1);
    assert FaceIndices(split, faces) == s;
    if f < faces - 1 {
      FaceIndicesAt(split, faces - 1, f);
      assert s[6 * f .. 6 * f + 6] == prev[6 * f .. 6 * f + 6];
    } else {
      assert s[6 * f .. 6 * f + 6] == q;
    }
  }

  /** Every index of `faces` quads is below 4 * faces. */
  lemma {:induction false} FaceIndicesBelow(split: Split, faces: nat)
    ensures AllBelow(FaceIndices(split, faces), 4 * faces)
  {
    if faces > 0 {
      var prev := FaceIndices(split, faces - 1);
      var q := QuadIndices(split, 4 * (faces - 1));
      FaceIndicesBelow(split, faces - 1);
      forall k | 0 <= k < |prev + q|
        ensures 0 <= (prev + q)[k] < 4 * faces
      {
        if k >= |prev| {
          assert (prev + q)[k] == q[k - |prev|];
        }
      }
    }
  }

  /** `faces` quads give 6 * faces indices; the entries of quad f are the
      split of vertices 4f..4f+3, and every index is below 4 * faces. */
  lemma FaceIndicesLayout(split: Split, faces: nat)
    ensures |FaceIndices(split, faces)| == 6 * faces
    ensures forall f :: 0 <= f < faces ==> QuadOf(FaceIndices(split, faces), f) == QuadIndices(split, 4 * f)
    ensures AllBelow(FaceIndices(split, faces), 4 * faces)
  {
    FaceIndicesLength(split, faces);
    FaceIndicesBelow(split, faces);
    forall f | 0 <= f < faces
      ensures QuadOf(FaceIndices(split, faces), f) == QuadIndices(split, 4 * f)
    {
      FaceIndicesAt(split, faces, f);
    }
  }

  /** Conversely, a table of 6n indices whose every quad is the split of
      vertices 4f..4f+3 is the table of n quads. */
  lemma QuadsDetermine(split: Split, s: seq<int>, faces: nat)
    requires |s| == 6 * faces
    requires forall f :: 0 <= f < faces ==> QuadOf(s, f) == QuadIndices(split, 4 * f)
    ensures s == FaceIndices(split, faces)
  {
    var t := FaceIndices(split, faces);
    FaceIndicesLength(split, faces);
    forall p | 0 <= p < |s|
      ensures s[p] == t[p]
    {
      var f, r := p / 6, p % 6;
      FaceIndicesAt(split, faces, f);
      assert s[p] == QuadOf(s, f)[r];
      assert t[p] == QuadOf(t, f)[r];
    }
  }

  // ---------------------------------------------------------------------
  // Draws

  /** `glDrawElements(GL_TRIANGLES, count, …)` over an index table against a
      vertex table of `vertexCount` vertices: the count is a whole number of
      triangles within the table, and every index read names a vertex. */
  predicate DrawInBounds(indices: seq<int>, count: nat, vertexCount: nat)
  {
    count <= |indices| && count % 3 == 0 && AllBelow(indices[..count], vertexCount)
  }

  /** Drawing all of a quad table is in bounds for four vertices per quad. */
  lemma FaceDrawInBounds(split: Split, faces: nat)
    ensures DrawInBounds(FaceIndices(split, faces), 6 * faces, 4 * faces)
  {
    FaceIndicesLength(split, faces);
    FaceIndicesBelow(split, faces);
    assert FaceIndices(split, faces)[..6 * faces] == FaceIndices(split, faces);
  }

  // ---------------------------------------------------------------------
  // Index element width

  /** The numpy element types index tables are built with: `np.ushort`
      (2 bytes), `np.uint`, which is C `unsigned long` (4 bytes on Windows
      and 32-bit platforms, 8 bytes on 64-bit Linux and macOS), and
      `np.uint32` (4 bytes). */
  datatype IndexDtype = UShort | ULong | UInt32

  /** The index type named in `glDrawElements`: `GL_UNSIGNED_SHORT` or
      `GL_UNSIGNED_INT`. */
  datatype IndexType = UnsignedShort | UnsignedInt

  /** A platform is given by the size of its C `unsigned long`. */
  predicate Platform(ulongBytes: nat)
  {
    ulongBytes == 4 || ulongBytes == 8
  }

  function ElementBytes(d: IndexDtype, ulongBytes: nat): nat
  {
    match d
    case UShort => 2
    case ULong => ulongBytes
    case UInt32 => 4
  }

  function TypeBytes(t: IndexType): nat
  {
    match t
    case UnsignedShort => 2
    case UnsignedInt => 4
  }

  /** One more than the largest index of type `t`. */
  function TypeRange(t: IndexType): nat
  {
    match t
    case UnsignedShort => 0x1_0000
    case UnsignedInt => 0x1_0000_0000
  }

  /** A table whose elements are each `words` index-type words wide, seen as
      a sequence of words: little-endian, a value below the type's range
      sits in the low word and zeros fill the words above it. */
  function Widen(values: seq<int>, words: nat): (r: seq<int>)
    requires words >= 1
  {
    if |values| == 0 then [] else [values[0]] + seq(words - 1, _ => 0) + Widen(values[1..], words)
  }

  /** A widened table has `words` entries per value. */
  lemma {:induction false} WidenLength(values: seq<int>, words: nat)
    requires words >= 1
    ensures |Widen(values, words)| == |values| * words
  {
    if |values| > 0 {
      WidenLength(values[1..], words);
      MulSucc(|values| - 1, words);
    }
  }

  /** Entry `k * words` of a widened table is value k, and the entries
      after it, up to the next value, are 0. */
  lemma {:induction false} WidenAt(values: seq<int>, words: nat, k: nat, j: nat)
    requires words >= 1
    requires k < |values| && j < words
    ensures k * words + j < |Widen(values, words)|
    ensures Widen(values, words)[k * words + j] == if j == 0 then values[k] else 0
  {
    var head := [values[0]] + seq(words - 1, _ => 0);
    var rest := Widen(values[1..], words);
    var w := Widen(values, words);
    assert w == head + rest;
    WidenLength(values, words);
    if k == 0 {
      assert w[j] == head[j];
    } else {
      var p := (k - 1) * words + j;
      MulSucc(k - 1, words);
      assert k * words + j == words + p;
      WidenAt(values[1..], words, k - 1, j);
      assert w[words + p] == rest[p];
    }
  }

  /** Elements as wide as the index type are read back unchanged. */
  lemma {:induction false} WidenNarrow(values: seq<int>)
    ensures Widen(values, 1) == values
  {
    if |values| > 0 {
      WidenNarrow(values[1..]);
      assert values == [values[0]] + values[1..];
    }
  }

  /** What a `glDrawElements` of type `t` reads from a buffer holding
      `values` as elements of type `d`: the buffer's bytes regrouped into
      words of `t`. */
  function ReadIndices(values: seq<int>, d: IndexDtype, t: IndexType, ulongBytes: nat): seq<int>
    requires Platform(ulongBytes) && TypeBytes(t) <= ElementBytes(d, ulongBytes)
  {
    Widen(values, ElementBytes(d, ulongBytes) / TypeBytes(t))
  }

  /** A draw of `count` indices of type `t` from a table of `values` stored
      as `d` reads exactly the table's first `count` entries. */
  predicate DrawReadsTable(values: seq<int>, d: IndexDtype, t: IndexType, ulongBytes: nat, count: nat)
  {
    && Platform(ulongBytes)
    && TypeBytes(t) <= ElementBytes(d, ulongBytes)
    && AllBelow(values, TypeRange(t))
    && count <= |values|
    && count <= |ReadIndices(values, d, t, ulongBytes)|
    && ReadIndices(values, d, t, ulongBytes)[..count] == values[..count]
  }

  /** A draw reads the table it was given exactly when the element type is
      as wide as the index type: an element twice as wide or wider puts a 0
      word second, where the table has a non-zero index. */
  lemma DrawReadsTableIff(values: seq<int>, d: IndexDtype, t: IndexType, ulongBytes: nat, count: nat)
    requires Platform(ulongBytes) && TypeBytes(t) <= ElementBytes(d, ulongBytes)
    requires AllBelow(values, TypeRange(t))
    requires 2 <= count <= |values| && values[1] != 0
    ensures DrawReadsTable(values, d, t, ulongBytes, count) <==> ElementBytes(d, ulongBytes) == TypeBytes(t)
  {
    var words := ElementBytes(d, ulongBytes) / TypeBytes(t);
    WidenLength(values, words);
    MulMono(1, words, |values|);
    if ElementBytes(d, ulongBytes) == TypeBytes(t) {
      WidenNarrow(values);
    } else {
      assert words >= 2;
      WidenAt(values, words, 0, 1);
      assert ReadIndices(values, d, t, ulongBytes)[..count][1] == 0;
    }
  }

  // ---------------------------------------------------------------------
  // Winding

  /** Twice the signed area of the triangle with 2-D corners (x0, y0),
      (x1, y1), (x2, y2): positive exactly when it is wound counter-clockwise. */
  function Orientation(x0: real, y0: real, x1: real, y1: real, x2: real, y2: real): real
  {
    (x1 - x0) * (y2 - y0) - (y1 - y0) * (x2 - x0)
  }
}
