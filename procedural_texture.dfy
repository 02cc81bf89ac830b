/**
 A model of the `Canvas` class of the procedural texture generator: an RGBA
 pixel buffer of `size = (W, H)` that can be read out row by row
 (`pixel_list`) and whose every channel can be redrawn at random in place
 (`randomize_pixels`).

 The image library's buffer is modelled as an `array2<Pixel>` indexed
 `[x, y]`, so that `pixels[x, y]` is what `getpixel((x, y))` returns.
 The random draw `randrange(lo, hi)` is a nondeterministic choice of an
 integer in the half-open range `[lo, hi)`.
 */
module ProceduralTexture {

  /** Largest value a channel of an RGBA pixel can hold. */
  const MaxChannel: int := 255

  /** An RGBA pixel: four integer channels, each in [0, 255] when `Valid()`. */
  datatype Pixel = Pixel(r: int, g: int, b: int, a: int) {

    predicate Valid() {
      0 <= r <= MaxChannel && 0 <= g <= MaxChannel &&
      0 <= b <= MaxChannel && 0 <= a <= MaxChannel
    }

    /** Channel `i` of the pixel, as `pixel[i]` of the tuple. */
    function Channel(i: nat): int
      requires i < 4
    {
      match i
      case 0 => r
      case 1 => g
      case 2 => b
      case 3 => a
    }

    /** The pixel with channel `i` replaced by `v`, as `pixel[i] = v` on the list copy. */
    function With(i: nat, v: int): (q: Pixel)
      requires i < 4
      ensures q.Channel(i) == v
      ensures forall j :: 0 <= j < 4 && j != i ==> q.Channel(j) == Channel(j)
    {
      match i
      case 0 => this.(r := v)
      case 1 => this.(g := v)
      case 2 => this.(b := v)
      case 3 => this.(a := v)
    }
  }

  /** A coordinate `(x, y)` handed to `getpixel` / `putpixel`. */
  datatype Coord = Coord(x: int, y: int)

  // ---------------------------------------------------------------------------
  // The random draw of `randomize_pixels`
  // ---------------------------------------------------------------------------

  /** `change` is a value `randrange(-c, 255 - c)` can return for channel
      value `c`: `max_sub = -c` included, `max_add = 255 - c` excluded. */
  predicate InDraw(c: int, change: int)
  {
    -c <= change < MaxChannel - c
  }

  /** The integers `lo, lo + 1, .., hi - 1` that `randrange(lo, hi)` chooses
      from, in increasing order. */
  function Iota(lo: int, hi: int): seq<int>
    decreases hi - lo
  {
    if lo >= hi then [] else [lo] + Iota(lo + 1, hi)
  }

  lemma {:induction false} IotaSpec(lo: int, hi: int)
    requires lo <= hi
    ensures |Iota(lo, hi)| == hi - lo
    ensures forall k :: 0 <= k < hi - lo ==> Iota(lo, hi)[k] == lo + k
    ensures forall z :: z in Iota(lo, hi) <==> lo <= z < hi
    decreases hi - lo
  {
    if lo < hi {
      IotaSpec(lo + 1, hi);
    }
  }

  /** The changes `randrange(max_sub, max_add)` chooses from for channel value `c`. */
  function DrawValues(c: int): seq<int>
  {
    Iota(-c, MaxChannel - c)
  }

  /** For every channel value `c` the draw range holds exactly 255 distinct
      integers, those and only those `InDraw` admits, so it is never empty and
      `randrange` never fails. */
  lemma DrawRangeSize(c: int)
    requires 0 <= c <= MaxChannel
    ensures |DrawValues(c)| == 255
    ensures forall k :: 0 <= k < 255 ==> DrawValues(c)[k] == k - c
    ensures forall change :: change in DrawValues(c) <==> InDraw(c, change)
  {
    IotaSpec(-c, MaxChannel - c);
  }

  /** `q` is a possible outcome of redrawing `p`: each channel of `q` is the
      old channel plus a change drawn from that channel's own draw range. */
  predicate Randomized(p: Pixel, q: Pixel)
  {
    forall i :: 0 <= i < 4 ==> InDraw(p.Channel(i), q.Channel(i) - p.Channel(i))
  }

  /** Every channel of `q` lies in [lo, hi]. */
  predicate ChannelsIn(q: Pixel, lo: int, hi: int)
  {
    forall i :: 0 <= i < 4 ==> lo <= q.Channel(i) <= hi
  }

  /** The outcomes of redrawing a valid pixel are exactly the pixels whose four
      channels, alpha included, lie in [0, 254]: 255 is never produced, and
      every value below it can be. */
  lemma RandomizedIff(p: Pixel, q: Pixel)
    requires p.Valid()
    ensures Randomized(p, q) <==> ChannelsIn(q, 0, MaxChannel - 1)
    ensures Randomized(p, q) ==> q.Valid()
  {
    assert q.r == q.Channel(0) && q.g == q.Channel(1) && q.b == q.Channel(2) && q.a == q.Channel(3);
  }

  /** Which values a pixel can be redrawn to does not depend on its old value,
      so the order in which pixels are visited cannot change what is possible. */
  lemma OutcomesIndependentOfInput(p: Pixel, p': Pixel, q: Pixel)
    requires p.Valid() && p'.Valid()
    ensures Randomized(p, q) <==> Randomized(p', q)
  {
    RandomizedIff(p, q);
    RandomizedIff(p', q);
  }

  /** Redraws every channel of one pixel, as the `for i in range(4)` loop does
      on its list copy of the pixel before it is written back. */
  method RandomizeChannels(p: Pixel) returns (q: Pixel)
    requires p.Valid()
    ensures Randomized(p, q)
    ensures q.Valid() && ChannelsIn(q, 0, MaxChannel - 1)
  {
    q := p;
    for i := 0 to 4
      invariant forall j :: 0 <= j < i ==> InDraw(p.Channel(j), q.Channel(j) - p.Channel(j))
      invariant forall j :: i <= j < 4 ==> q.Channel(j) == p.Channel(j)
    {
      var maxAdd := MaxChannel - q.Channel(i);
      var maxSub := -q.Channel(i);
      assert maxSub <= maxSub < maxAdd;
      var change :| maxSub <= change < maxAdd;
      q := q.With(i, q.Channel(i) + change);
    }
    RandomizedIff(p, q);
  }

  // ---------------------------------------------------------------------------
  // The order in which `randomize_pixels` writes the pixels
  // ---------------------------------------------------------------------------

  /** The coordinates `(0, y) .. (w - 1, y)` of one row, in increasing x. */
  function Row(w: nat, y: int): seq<Coord>
  {
    if w == 0 then [] else Row(w - 1, y) + [Coord(w - 1, y)]
  }

  /** The coordinates of rows `0 .. h - 1` of a `w`-wide buffer, row after row. */
  function RowMajor(w: nat, h: nat): seq<Coord>
  {
    if h == 0 then [] else RowMajor(w, h - 1) + Row(w, h - 1)
  }

  /** Whether `c` lies inside a `w` by `h` buffer. */
  predicate InBounds(w: int, h: int, c: Coord)
  {
    0 <= c.x < w && 0 <= c.y < h
  }

  /** The number of times `c` occurs in `s`. */
  function Count(s: seq<Coord>, c: Coord): nat
  {
    if s == [] then 0 else Count(s[..|s| - 1], c) + (if s[|s| - 1] == c then 1 else 0)
  }

  lemma {:induction false} CountConcat(a: seq<Coord>, b: seq<Coord>, c: Coord)
    ensures Count(a + b, c) == Count(a, c) + Count(b, c)
    decreases |b|
  {
    if b != [] {
      CountConcat(a, b[..|b| - 1], c);
      assert (a + b)[..|a + b| - 1] == a + b[..|b| - 1];
    } else {
      assert a + b == a;
    }
  }

  lemma {:induction false} RowLength(w: nat, y: int)
    ensures |Row(w, y)| == w
  {
    if w > 0 {
      RowLength(w - 1, y);
    }
  }

  lemma {:induction false} RowCount(w: nat, y: int, c: Coord)
    ensures Count(Row(w, y), c) == if c.y == y && 0 <= c.x < w then 1 else 0
  {
    if w > 0 {
      RowCount(w - 1, y, c);
      CountConcat(Row(w - 1, y), [Coord(w - 1, y)], c);
    }
  }

  /** Row-major order makes `w * h` writes in all. */
  lemma {:induction false} RowMajorLength(w: nat, h: nat)
    ensures |RowMajor(w, h)| == w * h
  {
    if h > 0 {
      RowMajorLength(w, h - 1);
      RowLength(w, h - 1);
      assert w * h == w * (h - 1) + w;
    }
  }

  /** Row-major order visits each coordinate of the `w` by `h` buffer exactly
      once and nothing outside it. */
  lemma {:induction false} RowMajorCount(w: nat, h: nat, c: Coord)
    ensures Count(RowMajor(w, h), c) == if InBounds(w, h, c) then 1 else 0
  {
    if h > 0 {
      var earlier, last := RowMajor(w, h - 1), Row(w, h - 1);
      assert RowMajor(w, h) == earlier + last;
      RowMajorCount(w, h - 1, c);
      RowCount(w, h - 1, c);
      CountConcat(earlier, last, c);
    }
  }

  // ---------------------------------------------------------------------------
  // The canvas
  // ---------------------------------------------------------------------------

  class Canvas {
    /** The image buffer, `pixels[x, y]` being the pixel at `(x, y)`. */
    var pixels: array2<Pixel>
    /** `(W, H)`: width and height. */
    var size: (nat, nat)
    var pixelCount: int

    /** The buffer has the canvas's dimensions and holds only RGBA pixels
        whose channels the image library keeps in [0, 255]. */
    ghost predicate Valid()
      reads this, pixels
    {
      && pixels.Length0 == size.0
      && pixels.Length1 == size.1
      && pixelCount == size.0 * size.1
      && forall x, y :: 0 <= x < size.0 && 0 <= y < size.1 ==> pixels[x, y].Valid()
    }

    /** A `size.0` by `size.1` canvas filled with `color`. The defaults are
        a 64 by 64 canvas and the colour (200, 0, 0), which the image library
        makes opaque by filling in alpha 255. */
    constructor (size: (nat, nat) := (64, 64), color: Pixel := Pixel(200, 0, 0, MaxChannel))
      requires color.Valid()
      ensures Valid() && fresh(pixels)
      ensures this.size == size && pixelCount == size.0 * size.1
      ensures forall x, y :: 0 <= x < size.0 && 0 <= y < size.1 ==> pixels[x, y] == color
    {
      pixels := new Pixel[size.0, size.1]((x, y) => color);
      this.size := size;
      pixelCount := size.0 * size.1;
    }

    /** The pixels as a list of rows: row `y` (outer index, from y = 0 up)
        holds the pixels `(0, y) .. (W - 1, y)`. Reads only. */
    method PixelList() returns (rows: seq<seq<Pixel>>)
      requires Valid()
      ensures |rows| == size.1
      ensures forall y :: 0 <= y < size.1 ==> |rows[y]| == size.0
      ensures forall y, x :: 0 <= y < size.1 && 0 <= x < size.0 ==> rows[y][x] == pixels[x, y]
    {
      rows := [];
      var yLine: seq<Pixel> := [];
      for y := 0 to size.1
        invariant |rows| == y && yLine == []
        invariant forall y' :: 0 <= y' < y ==> |rows[y']| == size.0
        invariant forall y', x :: 0 <= y' < y && 0 <= x < size.0 ==> rows[y'][x] == pixels[x, y']
      {
        for x := 0 to size.0
          invariant |yLine| == x
          invariant forall x' :: 0 <= x' < x ==> yLine[x'] == pixels[x', y]
        {
          yLine := yLine + [pixels[x, y]];
        }
        rows := rows + [yLine];
        yLine := [];
      }
    }

    /** Redraws every channel of every pixel in place, visiting the pixels
        row by row. `visits` is the sequence of coordinates written. */
    method RandomizePixels() returns (ghost visits: seq<Coord>)
      requires Valid()
      modifies pixels
      ensures Valid()
      ensures size == old(size) && pixelCount == old(pixelCount)
      ensures forall x, y :: 0 <= x < size.0 && 0 <= y < size.1 ==>
                Randomized(old(pixels[x, y]), pixels[x, y])
      ensures forall x, y :: 0 <= x < size.0 && 0 <= y < size.1 ==>
                ChannelsIn(pixels[x, y], 0, MaxChannel - 1)
      ensures visits == RowMajor(size.0, size.1) && |visits| == pixelCount
      ensures forall c :: Count(visits, c) == if InBounds(size.0, size.1, c) then 1 else 0
    {
      visits := [];
      for y := 0 to size.1
        invariant visits == RowMajor(size.0, y)
        invariant forall x', y' :: 0 <= x' < size.0 && 0 <= y' < size.1 ==>
                    if y' < y then Randomized(old(pixels[x', y']), pixels[x', y'])
                    else pixels[x', y'] == old(pixels[x', y'])
      {
        for x := 0 to size.0
          invariant visits == RowMajor(size.0, y) + Row(x, y)
          invariant forall x', y' :: 0 <= x' < size.0 && 0 <= y' < size.1 ==>
                      if y' < y || (y' == y && x' < x) then Randomized(old(pixels[x', y']), pixels[x', y'])
                      else pixels[x', y'] == old(pixels[x', y'])
        {
          var pixel := pixels[x, y];
          pixel := RandomizeChannels(pixel);
          pixels[x, y] := pixel;
          visits := visits + [Coord(x, y)];
        }
      }
      forall x, y | 0 <= x < size.0 && 0 <= y < size.1
        ensures pixels[x, y].Valid() && ChannelsIn(pixels[x, y], 0, MaxChannel - 1)
      {
        RandomizedIff(old(pixels[x, y]), pixels[x, y]);
      }
      RowMajorLength(size.0, size.1);
      forall c ensures Count(visits, c) == if InBounds(size.0, size.1, c) then 1 else 0 {
        RowMajorCount(size.0, size.1, c);
      }
    }
  }
}
