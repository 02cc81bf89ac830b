# Procedural texture canvas, modelled in Dafny

The procedural texture generator keeps an RGBA image in a `Canvas` object. The
canvas has a `size = (W, H)` and a `pixel_count`. It offers two operations of
its own:

- `pixel_list` reads the image out as a list of rows;
- `randomize_pixels` redraws every channel of every pixel in place.

This project models that class in `procedural_texture.dfy` (module
`ProceduralTexture`):

- **Pixel** is a datatype of four integer channels `r, g, b, a`. `Channel(i)`
  and `With(i, v)` stand for the tuple indexing and the list update of the
  source.
- **Canvas** is a class. Its image buffer is an `array2<Pixel>` indexed
  `[x, y]`, so `pixels[x, y]` is what `getpixel((x, y))` returns. It also has
  the fields `size: (nat, nat)` and `pixelCount`. `Valid()` says the buffer
  has the canvas's dimensions, `pixelCount == W * H`, and every channel is in
  [0, 255]. The image library keeps channels in that range, so the model
  assumes it as the class invariant.
- **Random draws.** `random.randrange(lo, hi)` is a nondeterministic choice
  `change :| lo <= change < hi`. Only the range of the draw is modelled, not
  its distribution.
- **Visit order.** `RandomizePixels` returns a ghost trace of the coordinates
  it writes, in order. Its contract says the trace is exactly row-major order
  over the W by H buffer.

What is proved:

- The constructor fills every pixel with the colour. It sets
  `pixelCount == W * H`.
- `PixelList` returns exactly H rows of W pixels each, with
  `rows[y][x] == pixels[x, y]`. It has no `modifies` clause, so the canvas is
  unchanged.
- For every channel value c, the draw range `[-c, 255 - c)` holds exactly 255
  integers, so `randrange` never fails.
- After `RandomizePixels`, each pixel is a possible redraw of its own old
  value. The possible redraws are exactly the pixels whose four channels,
  alpha included, lie in [0, 254]. The value 255 is never produced, because
  `randrange` excludes its upper end.
- What a pixel can be redrawn to does not depend on its old value. The visit
  order therefore cannot change the possible results.
- Every coordinate of the buffer is written exactly once, and nothing outside
  it is written: W * H writes in all. The size and pixel count do not change.

The docstring of `pixel_list` says the rows come "from the bottom up". The
code appends row y = 0 first, and y = 0 is the top row of an image in the
library's coordinates. The model follows the code: row `y` of the result is
image row `y`, in increasing y.

## Model

| member | source | states |
|---|---|---|
| `ProceduralTexture.Canvas.constructor` | src/procedural_texture.py:7-10 | The new canvas has the given size. Its W by H buffer holds the fill colour at every coordinate. `pixelCount == W * H`. The defaults are (64, 64) and the opaque colour (200, 0, 0, 255). |
| `ProceduralTexture.Canvas.PixelList` | src/procedural_texture.py:20-29 | Returns exactly H rows, each of exactly W pixels (the row buffer is cleared after each copy). Entry `[y][x]` is the pixel at (x, y), with y increasing in the outer index. Only reads the canvas. |
| `ProceduralTexture.Canvas.RandomizePixels` | src/procedural_texture.py:31-41 | Every pixel is a possible redraw of its own old value. Every channel, alpha included, ends in [0, 254]. The write trace is row-major order, which holds each in-bounds coordinate exactly once and no other, `pixelCount` writes in all. The canvas stays valid, and size and pixel count are unchanged. |
| `ProceduralTexture.RandomizeChannels` | src/procedural_texture.py:35-40 | Redrawing the four channels of one pixel gives a pixel whose every channel is the old value plus a change from that channel's draw range. The result is a valid pixel with all channels in [0, 254]. |
| `ProceduralTexture.Pixel.With` | src/procedural_texture.py:40 | Updating channel i sets that channel to the new value and leaves the other three unchanged. |
| `ProceduralTexture.IotaSpec` | src/procedural_texture.py:39 | The candidates of `randrange(lo, hi)` are the `hi - lo` integers `lo, lo + 1, ..`, in order. An integer is a candidate exactly when `lo <= z < hi`. |
| `ProceduralTexture.DrawRangeSize` | src/procedural_texture.py:37-39 | For every channel value c in [0, 255], the draw range from `max_sub = -c` to `max_add = 255 - c` holds exactly 255 distinct integers. Its members are exactly the changes the draw allows, so it is never empty. |
| `ProceduralTexture.RandomizedIff` | src/procedural_texture.py:36-40 | For a valid pixel p, q is a possible redraw of p if and only if every channel of q lies in [0, 254]. Such a q is a valid pixel. |
| `ProceduralTexture.OutcomesIndependentOfInput` | src/procedural_texture.py:33-41 | Any two valid pixels have the same set of possible redraws. So the visit order and earlier writes cannot affect what a later pixel can become. |
| `ProceduralTexture.RowLength` | src/procedural_texture.py:34 | The inner `for x` loop visits W coordinates. |
| `ProceduralTexture.RowCount` | src/procedural_texture.py:34 | The inner loop over row y visits (x, y) once for each 0 <= x < W and never visits any other coordinate. |
| `ProceduralTexture.RowMajorLength` | src/procedural_texture.py:33-34 | The nested loops make W * H visits, the pixel count set at line 10. |
| `ProceduralTexture.RowMajorCount` | src/procedural_texture.py:33-34 | Row-major order over a W by H buffer visits every in-bounds coordinate exactly once and never visits an out-of-bounds one. |

## Left out

- `show` and `save` (lines 12-18): they hand the image to the image library for display and PNG encoding, which is I/O.
- The module-level script (lines 43-46): it builds a 1000 by 1000 canvas, randomizes it, saves it and shows it when the module is imported. That is I/O at import time.
- The image library's own behaviour is not modelled: `Image.new` mode handling and the conversion of a colour given as a 3-tuple. The constructor takes a four-channel `Pixel`. Its default colour is already written with the alpha 255 that the library fills in.
- The fill colour must be a valid pixel (channels in [0, 255]). The image library enforces this, and the class invariant relies on it.
- The distribution of `random.randrange` is not modelled. The draw is a nondeterministic choice in its half-open range.
- Python's unbounded integers need no wrap-around handling. `size` is a pair of naturals because the image library refuses negative sizes.
