/** 03texture's procedural texture: an RGBA image, row by row, in which each
    colour channel is a checkerboard of its own period (10, 13 and 17
    pixels) and alpha is opaque. The entries are Python 2 integers, so `/`
    is floor division; every coordinate is non-negative, where floor and
    Dafny's division agree. */
module Checkerboard {
  import opened Util

  /** `Window.__init__`'s default size. */
  const DefaultWidth: nat := 640
  const DefaultHeight: nat := 480

  /** The checker period of red, green and blue. */
  function Period(c: nat): nat
    requires c < 3
  {
    if c == 0 then 10 else if c == 1 then 13 else 17
  }

  /** Channel `c` (0 = R, 1 = G, 2 = B, 3 = A) of pixel (i, j):
      `0xFF * (j / p % 2) * (i / p % 2)` for a colour, `0xFF` for alpha. */
  function Channel(c: nat, i: nat, j: nat): nat
    requires c < 4
  {
    if c == 3 then 0xFF
    else 0xFF * (j / Period(c) % 2) * (i / Period(c) % 2)
  }

  /** The four entries the inner loop appends for pixel (i, j). */
  function Pixel(i: nat, j: nat): (r: seq<nat>)
    ensures |r| == 4
  {
    seq(4, c requires 0 <= c < 4 => Channel(c, i, j))
  }

  /** The first `n` pixels of row `j`. */
  function Row(n: nat, j: nat): (r: seq<nat>)
    ensures |r| == 4 * n
  {
    if n == 0 then [] else Row(n - 1, j) + Pixel(n - 1, j)
  }

  /** The first `m` rows of a `width`-pixel image, rows outermost. */
  function Image(width: nat, m: nat): seq<nat>
  {
    if m == 0 then [] else Image(width, m - 1) + Row(width, m - 1)
  }

  /** The nested loop of `initGL` building `im`, appending each pixel's R,
      G, B and A in turn. */
  method MakeImage(width: nat, height: nat) returns (im: seq<nat>)
    ensures im == Image(width, height)
    ensures |im| == height * (4 * width)
  {
    im := [];
    for j := 0 to height
      invariant im == Image(width, j)
    {
      for i := 0 to width
        invariant im == Image(width, j) + Row(i, j)
      {
        im := im + Pixel(i, j);
      }
    }
    ImageLength(width, height);
  }

  /** The image holds a row of `4 * width` entries per row. */
  lemma {:induction false} ImageLength(width: nat, m: nat)
    ensures |Image(width, m)| == m * (4 * width)
  {
    if m > 0 {
      ImageLength(width, m - 1);
      MulSucc(m - 1, 4 * width);
    }
  }

  /** Entry `4i + c` of row `j` is channel `c` of pixel (i, j). */
  lemma {:induction false} RowAt(n: nat, j: nat, i: nat, c: nat)
    requires i < n && c < 4
    ensures 4 * i + c < |Row(n, j)| && Row(n, j)[4 * i + c] == Pixel(i, j)[c]
  {
    if i < n - 1 {
      RowAt(n - 1, j, i, c);
    }
  }

  /** Row `j` of the image starts at entry `j * 4 * width`. */
  lemma {:induction false} ImageRowAt(width: nat, m: nat, j: nat, k: nat)
    requires j < m && k < 4 * width
    ensures j * (4 * width) + k < |Image(width, m)| && Image(width, m)[j * (4 * width) + k] == Row(width, j)[k]
  {
    var before := Image(width, m - 1);
    ImageLength(width, m - 1);
    if j < m - 1 {
      ImageRowAt(width, m - 1, j, k);
    }
  }

  /** Pixel (i, j) occupies entries `4 * (j * width + i)` to `+ 3`: rows
      are outermost and each pixel is R, G, B, A. */
  lemma ImageAt(width: nat, m: nat, i: nat, j: nat, c: nat)
    requires i < width && j < m && c < 4
    ensures 4 * (j * width + i) + c < |Image(width, m)|
    ensures Image(width, m)[4 * (j * width + i) + c] == Channel(c, i, j)
  {
    RowAt(width, j, i, c);
    ImageRowAt(width, m, j, 4 * i + c);
    PixelOffset(width, i, j, c);
  }

  /** Pixel entry `4 * (j * width + i) + c` is entry `4i + c` of row `j`. */
  lemma PixelOffset(width: nat, i: nat, j: nat, c: nat)
    ensures 4 * (j * width + i) + c == j * (4 * width) + (4 * i + c)
  {
    assert j * (4 * width) == 4 * (j * width);
  }

  /** Every entry is 0 or 0xFF, and alpha is always 0xFF; in particular
      every entry fits the unsigned byte the upload declares. */
  lemma ChannelValues(c: nat, i: nat, j: nat)
    requires c < 4
    ensures Channel(c, i, j) == 0 || Channel(c, i, j) == 0xFF
    ensures c == 3 ==> Channel(c, i, j) == 0xFF
    ensures Channel(c, i, j) < 0x100
  {
  }

  /** A colour channel is lit exactly on the squares whose row band and
      column band (of its period) are both odd: red is 0xFF iff `j / 10`
      and `i / 10` are both odd, green likewise with 13, blue with 17. */
  lemma ChannelLitIff(c: nat, i: nat, j: nat)
    requires c < 3
    ensures Channel(c, i, j) == 0xFF <==> (j / Period(c)) % 2 == 1 && (i / Period(c)) % 2 == 1
  {
  }

  /** The default 640 x 480 image has 640 * 480 * 4 entries. */
  lemma DefaultImageSize()
    ensures |Image(DefaultWidth, DefaultHeight)| == DefaultWidth * DefaultHeight * 4 == 1228800
  {
    ImageLength(DefaultWidth, DefaultHeight);
  }
}
