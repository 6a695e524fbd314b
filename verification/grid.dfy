/** The triangulated grid of `MyGLWidget.makePlane` (rippleDeformer) and of
    the `Plane` render object (diffuseLighting): a row-major grid of
    (zdivs+1) x (xdivs+1) points in the y = 0 plane, centred on the origin,
    each cell split into two triangles, indices stored as unsigned 16-bit. */
module Grid {
  import opened Util
  import opened Vectors

  /** Arguments of `makePlane(xsize, zsize, xdivs, zdivs)` / `Plane(...)`. */
  datatype PlaneArgs = PlaneArgs(xsize: real, zsize: real, xdivs: int, zdivs: int)
  {
    /** The two float divisions by `zdivs` and `xdivs` succeed. */
    predicate Divisible()
    {
      xdivs != 0 && zdivs != 0
    }
  }

  /** Python raises ZeroDivisionError computing `ifactor` or `jfactor`. */
  datatype PlaneError = ZeroDivision

  /** What `makePlane` returns: positions and 16-bit indices. */
  datatype GridMesh = GridMesh(vertices: seq<Vec3>, indices: seq<int>)

  /** What `Plane.__init__` stores: positions, normals and 16-bit indices. */
  datatype LitPlane = LitPlane(vertices: seq<Vec3>, normals: seq<Vec3>, indices: seq<int>)

  /** Range of numpy's `ushort` element type. */
  const UShortModulus: nat := 0x1_0000

  /** The normal `(0, 1, 0)` that `Plane` gives every vertex. */
  const Up := Vec3(0.0, 1.0, 0.0)

  /** The point of row `i` (along z) and column `j` (along x):
      x = (xsize / xdivs) * j - xsize / 2, y = 0, z = (zsize / zdivs) * i - zsize / 2. */
  function GridPoint(a: PlaneArgs, i: nat, j: nat): Vec3
    requires a.Divisible()
  {
    Vec3((a.xsize / (a.xdivs as real)) * (j as real) - a.xsize / 2.0,
         0.0,
         (a.zsize / (a.zdivs as real)) * (i as real) - a.zsize / 2.0)
  }

  /** Position of grid point (i, j) in the vertex list of a grid whose rows
      hold `xdivs + 1` points. */
  function GridIndex(xdivs: nat, i: nat, j: nat): nat
  {
    i * (xdivs + 1) + j
  }

  /** The first `rows` rows of `cols` points each, appended row by row as
      the nested loop over `i` then `j` does. */
  function Rows(a: PlaneArgs, rows: nat, cols: nat): seq<Vec3>
    requires a.Divisible()
  {
    if rows == 0 then []
    else Rows(a, rows - 1, cols) + seq(cols, j requires 0 <= j < cols => GridPoint(a, rows - 1, j))
  }

  /** The six indices cell (i, j) appends: with r = i*(xdivs+1) and
      n = (i+1)*(xdivs+1), the triangles (r+j, n+j, n+j+1) and (r+j, n+j+1, r+j+1). */
  function CellIndices(xdivs: nat, i: nat, j: nat): seq<int>
  {
    var r := i * (xdivs + 1);
    var n := (i + 1) * (xdivs + 1);
    [r + j, n + j, n + j + 1, r + j, n + j + 1, r + j + 1]
  }

  /** The indices of the first `cells` cells of row `i`. */
  function RowIndices(xdivs: nat, i: nat, cells: nat): seq<int>
  {
    if cells == 0 then []
    else RowIndices(xdivs, i, cells - 1) + CellIndices(xdivs, i, cells - 1)
  }

  /** The indices of the first `rows` rows of cells, `xdivs` cells each. */
  function GridIndices(xdivs: nat, rows: nat): seq<int>
  {
    if rows == 0 then []
    else GridIndices(xdivs, rows - 1) + RowIndices(xdivs, rows - 1, xdivs)
  }

  /** numpy's conversion of Python ints to `ushort`, wrapping modulo 2^16. */
  function ToUShort(s: seq<int>): (r: seq<int>)
    ensures |r| == |s|
    ensures AllBelow(r, UShortModulus)
  {
    seq(|s|, k requires 0 <= k < |s| => s[k] % UShortModulus)
  }

  /** `makePlane`: ZeroDivisionError when a division count is zero, else the
      vertices of `range(zdivs + 1)` x `range(xdivs + 1)` and the indices of
      `range(zdivs)` x `range(xdivs)` cells. */
  function MakePlane(a: PlaneArgs): (r: Result<GridMesh, PlaneError>)
    ensures r.Err? <==> !a.Divisible()
    ensures r.Ok? ==> AllBelow(r.value.indices, UShortModulus)
  {
    if a.zdivs == 0 || a.xdivs == 0 then Err(ZeroDivision)
    else
      Ok(GridMesh(Rows(a, RangeLen(a.zdivs + 1), RangeLen(a.xdivs + 1)),
                  ToUShort(GridIndices(RangeLen(a.xdivs), RangeLen(a.zdivs)))))
  }

  /** `Plane.__init__`: the same grid as `makePlane`, plus one upward normal
      per vertex. */
  function MakeLitPlane(a: PlaneArgs): (r: Result<LitPlane, PlaneError>)
    ensures r.Err? <==> !a.Divisible()
    ensures r.Ok? ==> |r.value.normals| == |r.value.vertices|
    ensures r.Ok? ==> forall k :: 0 <= k < |r.value.normals| ==> r.value.normals[k] == Up
  {
    if a.zdivs == 0 || a.xdivs == 0 then Err(ZeroDivision)
    else
      var vertices := Rows(a, RangeLen(a.zdivs + 1), RangeLen(a.xdivs + 1));
      Ok(LitPlane(vertices,
                  seq(|vertices|, _ => Up),
                  ToUShort(GridIndices(RangeLen(a.xdivs), RangeLen(a.zdivs)))))
  }

  // ---------------------------------------------------------------------
  // Layout of the vertex list

  /** `Rows` holds rows*cols points. */
  lemma {:induction false} RowsLength(a: PlaneArgs, rows: nat, cols: nat)
    requires a.Divisible()
    ensures |Rows(a, rows, cols)| == rows * cols
  {
    if rows > 0 {
      RowsLength(a, rows - 1, cols);
      MulSucc(rows - 1, cols);
    }
  }

  /** Point i*cols + j of `Rows` is column j of row i. */
  lemma {:induction false} RowsAt(a: PlaneArgs, rows: nat, cols: nat, i: nat, j: nat)
    requires a.Divisible()
    requires i < rows && j < cols
    ensures i * cols + j < |Rows(a, rows, cols)|
    ensures Rows(a, rows, cols)[i * cols + j] == GridPoint(a, i, j)
  {
    var prefix := Rows(a, rows - 1, cols);
    RowsLength(a, rows - 1, cols);
    if i < rows - 1 {
      RowsAt(a, rows - 1, cols, i, j);
    } else {
      assert i * cols + j == |prefix| + j;
    }
  }

  // ---------------------------------------------------------------------
  // Layout and range of the index list

  /** Row `i` contributes 6 * cells indices; entries 6j..6j+5 are cell (i, j). */
  lemma {:induction false} RowIndicesLayout(xdivs: nat, i: nat, cells: nat)
    ensures |RowIndices(xdivs, i, cells)| == 6 * cells
    ensures forall j, k :: 0 <= j < cells && 0 <= k < 6 ==>
              RowIndices(xdivs, i, cells)[6 * j + k] == CellIndices(xdivs, i, j)[k]
  {
    if cells > 0 {
      RowIndicesLayout(xdivs, i, cells - 1);
    }
  }

  /** The first `rows` rows of cells give 6 * (rows * xdivs) indices. */
  lemma {:induction false} GridIndicesLength(xdivs: nat, rows: nat)
    ensures |GridIndices(xdivs, rows)| == 6 * (rows * xdivs)
  {
    if rows > 0 {
      GridIndicesLength(xdivs, rows - 1);
      RowIndicesLayout(xdivs, rows - 1, xdivs);
      MulSucc(rows - 1, xdivs);
    }
  }

  /** Entry 6(i*xdivs + j) + k of the index list is entry k of cell (i, j). */
  lemma {:induction false} GridIndexAt(xdivs: nat, rows: nat, i: nat, j: nat, k: nat)
    requires i < rows && j < xdivs && k < 6
    ensures 6 * (i * xdivs + j) + k < |GridIndices(xdivs, rows)|
    ensures GridIndices(xdivs, rows)[6 * (i * xdivs + j) + k] == CellIndices(xdivs, i, j)[k]
  {
    var prefix := GridIndices(xdivs, rows - 1);
    var row := RowIndices(xdivs, rows - 1, xdivs);
    var p := 6 * (i * xdivs + j) + k;
    assert |prefix| == 6 * ((rows - 1) * xdivs) by {
      GridIndicesLength(xdivs, rows - 1);
    }
    assert |row| == 6 * xdivs && row[6 * j + k] == CellIndices(xdivs, rows - 1, j)[k] by {
      RowIndicesLayout(xdivs, rows - 1, xdivs);
    }
    assert GridIndices(xdivs, rows) == prefix + row;
    if i < rows - 1 {
      assert p < |prefix| by {
        MulSucc(i, xdivs);
        MulMono(i + 1, rows - 1, xdivs);
      }
      GridIndexAt(xdivs, rows - 1, i, j, k);
    } else {
      assert p == |prefix| + (6 * j + k);
    }
  }

  /** Every entry of cell (i, j) with j < xdivs names one of the first i + 2
      rows of points. */
  lemma CellIndicesBounded(xdivs: nat, i: nat, j: nat)
    requires j < xdivs
    ensures forall k :: 0 <= k < 6 ==> 0 <= CellIndices(xdivs, i, j)[k] < (i + 2) * (xdivs + 1)
  {
    MulSucc(i, xdivs + 1);
    MulSucc(i + 1, xdivs + 1);
  }

  /** Every index of row `i` names one of the first i + 2 rows of points. */
  lemma {:induction false} RowIndicesBounded(xdivs: nat, i: nat, cells: nat)
    requires cells <= xdivs
    ensures AllBelow(RowIndices(xdivs, i, cells), (i + 2) * (xdivs + 1))
  {
    if cells > 0 {
      RowIndicesBounded(xdivs, i, cells - 1);
      CellIndicesBounded(xdivs, i, cells - 1);
    }
  }

  /** Every index of the first `rows` rows of cells names one of the
      (rows + 1) * (xdivs + 1) points of the grid. */
  lemma {:induction false} GridIndicesBounded(xdivs: nat, rows: nat)
    ensures AllBelow(GridIndices(xdivs, rows), (rows + 1) * (xdivs + 1))
  {
    if rows > 0 {
      GridIndicesBounded(xdivs, rows - 1);
      RowIndicesBounded(xdivs, rows - 1, xdivs);
      MulMono(rows, rows + 1, xdivs + 1);
    }
  }

  /** The corners of cell (i, j) as grid indices: the first triangle is
      (i,j), (i+1,j), (i+1,j+1) and the second (i,j), (i+1,j+1), (i,j+1).
      Each triangle has three different corners, and the two share exactly
      the diagonal from (i,j) to (i+1,j+1). */
  lemma CellTriangles(xdivs: nat, i: nat, j: nat)
    requires j < xdivs
    ensures CellIndices(xdivs, i, j) ==
              [GridIndex(xdivs, i, j), GridIndex(xdivs, i + 1, j), GridIndex(xdivs, i + 1, j + 1),
               GridIndex(xdivs, i, j), GridIndex(xdivs, i + 1, j + 1), GridIndex(xdivs, i, j + 1)]
    ensures var c := CellIndices(xdivs, i, j);
            && c[0] != c[1] && c[1] != c[2] && c[0] != c[2]
            && c[3] != c[4] && c[4] != c[5] && c[3] != c[5]
            && {c[0], c[1], c[2]} * {c[3], c[4], c[5]} ==
                 {GridIndex(xdivs, i, j), GridIndex(xdivs, i + 1, j + 1)}
            && {c[0], c[1], c[2]} + {c[3], c[4], c[5]} ==
                 {GridIndex(xdivs, i, j), GridIndex(xdivs, i, j + 1),
                  GridIndex(xdivs, i + 1, j), GridIndex(xdivs, i + 1, j + 1)}
  {
    var r := i * (xdivs + 1);
    assert (i + 1) * (xdivs + 1) == r + xdivs + 1;
  }

  // ---------------------------------------------------------------------
  // The plane as a whole

  /** Every point of the grid lies in the plane y = 0. */
  lemma {:induction false} RowsFlat(a: PlaneArgs, rows: nat, cols: nat)
    requires a.Divisible()
    ensures forall v :: v in Rows(a, rows, cols) ==> v.y == 0.0
  {
    if rows > 0 {
      RowsFlat(a, rows - 1, cols);
    }
  }

  /** For xdivs >= 1 and zdivs >= 1, `makePlane` succeeds with
      (zdivs+1)*(xdivs+1) vertices and 6*(zdivs*xdivs) indices. */
  lemma PlaneSize(a: PlaneArgs)
    requires a.xdivs >= 1 && a.zdivs >= 1
    ensures MakePlane(a).Ok?
    ensures |MakePlane(a).value.vertices| == (a.zdivs + 1) * (a.xdivs + 1)
    ensures |MakePlane(a).value.indices| == 6 * (a.zdivs * a.xdivs)
  {
    RowsLength(a, a.zdivs + 1, a.xdivs + 1);
    GridIndicesLength(a.xdivs, a.zdivs);
  }

  /** For xdivs >= 1 and zdivs >= 1, `makePlane` yields (xdivs+1)*(zdivs+1)
      vertices, point i*(xdivs+1)+j being column j of row i, all at height 0. */
  lemma PlaneVertices(a: PlaneArgs)
    requires a.xdivs >= 1 && a.zdivs >= 1
    ensures MakePlane(a).Ok?
    ensures var m := MakePlane(a).value;
            && |m.vertices| == (a.zdivs + 1) * (a.xdivs + 1)
            && (forall i, j :: 0 <= i <= a.zdivs && 0 <= j <= a.xdivs ==>
                  && GridIndex(a.xdivs, i, j) < |m.vertices|
                  && m.vertices[GridIndex(a.xdivs, i, j)] == GridPoint(a, i, j))
            && (forall v :: v in m.vertices ==> v.y == 0.0)
  {
    var m := MakePlane(a).value;
    RowsLength(a, a.zdivs + 1, a.xdivs + 1);
    RowsFlat(a, a.zdivs + 1, a.xdivs + 1);
    forall i, j | 0 <= i <= a.zdivs && 0 <= j <= a.xdivs
      ensures GridIndex(a.xdivs, i, j) < |m.vertices|
      ensures m.vertices[GridIndex(a.xdivs, i, j)] == GridPoint(a, i, j)
    {
      RowsAt(a, a.zdivs + 1, a.xdivs + 1, i, j);
    }
  }

  /** For xdivs >= 1 and zdivs >= 1, `makePlane` yields 6*xdivs*zdivs
      indices, each naming an existing vertex; while the grid has at most
      2^16 points the stored 16-bit indices are exactly the generated ones. */
  lemma PlaneIndices(a: PlaneArgs)
    requires a.xdivs >= 1 && a.zdivs >= 1
    ensures MakePlane(a).Ok?
    ensures var m := MakePlane(a).value;
            && |m.indices| == 6 * (a.zdivs * a.xdivs)
            && AllBelow(m.indices, |m.vertices|)
            && ((a.zdivs + 1) * (a.xdivs + 1) <= UShortModulus ==>
                  m.indices == GridIndices(a.xdivs, a.zdivs))
  {
    var m := MakePlane(a).value;
    var raw := GridIndices(a.xdivs, a.zdivs);
    var n := (a.zdivs + 1) * (a.xdivs + 1);
    PlaneSize(a);
    GridIndicesBounded(a.xdivs, a.zdivs);
    assert m.indices == ToUShort(raw);
    assert |m.vertices| == n;
    forall k | 0 <= k < |m.indices|
      ensures 0 <= m.indices[k] < n
    {
      if raw[k] >= UShortModulus {
        assert m.indices[k] < UShortModulus <= raw[k] < n;
      }
    }
    if n <= UShortModulus {
      UShortIdentity(raw);
    }
  }

  /** Converting to `ushort` changes nothing when every index is below 2^16. */
  lemma UShortIdentity(s: seq<int>)
    requires AllBelow(s, UShortModulus)
    ensures ToUShort(s) == s
  {
  }

  /** The last index the grid generates is the far corner,
      (zdivs+1)*(xdivs+1) - 1, at entry 6*(zdivs*xdivs) - 4. */
  lemma LastCorner(xdivs: nat, zdivs: nat)
    requires xdivs >= 1 && zdivs >= 1
    ensures var s := GridIndices(xdivs, zdivs);
            && 6 * (zdivs * xdivs) - 4 >= 0
            && |s| == 6 * (zdivs * xdivs)
            && s[6 * (zdivs * xdivs) - 4] == (zdivs + 1) * (xdivs + 1) - 1
  {
    var i, j := zdivs - 1, xdivs - 1;
    GridIndicesLength(xdivs, zdivs);
    GridIndexAt(xdivs, zdivs, i, j, 2);
    MulSucc(i, xdivs);
    assert 6 * (i * xdivs + j) + 2 == 6 * (zdivs * xdivs) - 4;
    MulSucc(zdivs, xdivs + 1);
  }

  /** `makePlane` succeeds and its 16-bit index list holds exactly the
      indices the loops generate. */
  predicate ExactIndices(a: PlaneArgs)
  {
    MakePlane(a).Ok? && MakePlane(a).value.indices == GridIndices(RangeLen(a.xdivs), RangeLen(a.zdivs))
  }

  /** The 16-bit index list is exact precisely when the grid has at most 2^16
      points: otherwise the far corner's index wraps. */
  lemma UShortExactIff(a: PlaneArgs)
    requires a.xdivs >= 1 && a.zdivs >= 1
    ensures MakePlane(a).Ok?
    ensures ExactIndices(a) <==> (a.zdivs + 1) * (a.xdivs + 1) <= UShortModulus
  {
    PlaneIndices(a);
    LastCorner(a.xdivs, a.zdivs);
    var raw := GridIndices(a.xdivs, a.zdivs);
    var p := 6 * (a.zdivs * a.xdivs) - 4;
    var top := (a.zdivs + 1) * (a.xdivs + 1) - 1;
    if top >= UShortModulus {
      assert MakePlane(a).value.indices[p] == top % UShortModulus != top;
    }
  }

  /** Exact real division: (x / d) * d == x. */
  lemma DivTimes(x: real, d: real)
    requires d != 0.0
    ensures (x / d) * d == x
  {
  }

  /** The plane spans [-xsize/2, xsize/2] x [-zsize/2, zsize/2]: the first
      vertex is the (-x, -z) corner and the last the (+x, +z) corner. */
  lemma PlaneCorners(a: PlaneArgs)
    requires a.xdivs >= 1 && a.zdivs >= 1
    ensures MakePlane(a).Ok?
    ensures var m := MakePlane(a).value;
            && |m.vertices| > 0
            && m.vertices[0] == Vec3(-a.xsize / 2.0, 0.0, -a.zsize / 2.0)
            && m.vertices[|m.vertices| - 1] == Vec3(a.xsize / 2.0, 0.0, a.zsize / 2.0)
  {
    var rows, cols := a.zdivs + 1, a.xdivs + 1;
    var m := MakePlane(a).value;
    assert m.vertices == Rows(a, rows, cols);
    RowsLength(a, rows, cols);
    RowsAt(a, rows, cols, 0, 0);
    RowsAt(a, rows, cols, a.zdivs, a.xdivs);
    MulSucc(a.zdivs, cols);
    DivTimes(a.xsize, a.xdivs as real);
    DivTimes(a.zsize, a.zdivs as real);
  }

  /** `Plane` builds the same vertices and indices as `makePlane`, with a
      normal list of the same length. */
  lemma LitPlaneMatchesGrid(a: PlaneArgs)
    ensures MakeLitPlane(a).Ok? <==> MakePlane(a).Ok?
    ensures MakeLitPlane(a).Ok? ==>
              && MakeLitPlane(a).value.vertices == MakePlane(a).value.vertices
              && MakeLitPlane(a).value.indices == MakePlane(a).value.indices
              && |MakeLitPlane(a).value.normals| == |MakePlane(a).value.vertices|
  {
  }

  /** A negative division count divides fine but yields no cells at all. */
  lemma NegativeDivsNoCells(a: PlaneArgs)
    requires a.Divisible() && (a.xdivs < 0 || a.zdivs < 0)
    ensures MakePlane(a).Ok? && MakePlane(a).value.indices == []
  {
    GridIndicesLength(RangeLen(a.xdivs), RangeLen(a.zdivs));
  }
}

/** The two grids the programs actually build. */
module GridInstances {
  import opened Util
  import opened Grid

  /** rippleDeformer requests `makePlane(8., 8., 160, 160)`. */
  const RippleArgs := PlaneArgs(8.0, 8.0, 160, 160)

  /** diffuseLighting's `Plane()` defaults: `xsize=4., zsize=4., xdivs=10, zdivs=10`. */
  const LitPlaneDefaults := PlaneArgs(4.0, 4.0, 10, 10)

  /** The 160 x 160 grid has 25921 points and 153600 indices. */
  lemma RippleGridSize(a: PlaneArgs)
    requires a == RippleArgs
    ensures MakePlane(a).Ok?
    ensures |MakePlane(a).value.vertices| == 25921
    ensures |MakePlane(a).value.indices| == 153600
  {
    assert (a.zdivs + 1) * (a.xdivs + 1) == 25921;
    assert 6 * (a.zdivs * a.xdivs) == 153600;
    PlaneSize(a);
  }

  /** The largest index of the 160 x 160 grid is its far corner, 25920
      (see `Grid.LastCorner` and `Grid.GridIndicesBounded`); it fits an
      unsigned short, so every index reaches the `GL_UNSIGNED_SHORT` draw
      unchanged. */
  lemma RippleGridFits(a: PlaneArgs)
    requires a.xdivs == 160 && a.zdivs == 160
    ensures (a.zdivs + 1) * (a.xdivs + 1) <= UShortModulus
    ensures ExactIndices(a)
  {
    assert (a.zdivs + 1) * (a.xdivs + 1) <= UShortModulus;
    UShortExactIff(a);
  }

  /** The default `Plane` has 121 points with upward normals and 600
      indices, all naming an existing point. */
  lemma LitPlaneDefaultsShape(a: PlaneArgs)
    requires a == LitPlaneDefaults
    ensures MakeLitPlane(a).Ok?
    ensures |MakeLitPlane(a).value.vertices| == |MakeLitPlane(a).value.normals| == 121
    ensures |MakeLitPlane(a).value.indices| == 600
    ensures AllBelow(MakeLitPlane(a).value.indices, 121)
  {
    assert (a.zdivs + 1) * (a.xdivs + 1) == 121;
    assert 6 * (a.zdivs * a.xdivs) == 600;
    PlaneSize(a);
    PlaneIndices(a);
    LitPlaneMatchesGrid(a);
  }
}
