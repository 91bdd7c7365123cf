/** `readimage`: turning a decoded picture into an `Image` whose raster
    has no scanline padding. Loading from disk and format conversion are
    outside the model; their result is the `DecodedImage` given here. */
module ImageReading {
  import opened Irpv
  import opened Wrappers
  import opened Arithmetic

  /** A decoded picture as the image library holds it: its scanlines, each
      `bytesPerLine` long, of which the first `width * depth / 8` bytes are
      pixels and the rest padding to a 32-bit boundary. */
  datatype DecodedImage = DecodedImage(width: nat, depth: nat, bytesPerLine: nat, scanlines: seq<Bytes>)
  {
    function Height(): nat
    {
      |scanlines|
    }
  }

  /** Pixel bytes per scanline (C `int` arithmetic on non-negative values). */
  function ValidBytesPerLine(q: DecodedImage): nat
  {
    q.width * q.depth / 8
  }

  predicate WellFormed(q: DecodedImage)
  {
    && ValidBytesPerLine(q) <= q.bytesPerLine
    && forall i :: 0 <= i < |q.scanlines| ==> |q.scanlines[i]| == q.bytesPerLine
  }

  /** Scanline `i` without its padding. */
  function Row(q: DecodedImage, i: nat): (r: Bytes)
    requires WellFormed(q) && i < q.Height()
    ensures |r| == ValidBytesPerLine(q)
  {
    q.scanlines[i][..ValidBytesPerLine(q)]
  }

  /** The first `n` scanlines, unpadded and concatenated. */
  function Packed(q: DecodedImage, n: nat): (r: Bytes)
    requires WellFormed(q) && n <= q.Height()
    ensures |r| == n * ValidBytesPerLine(q)
  {
    if n == 0 then [] else
      MulStep(n - 1, ValidBytesPerLine(q));
      Packed(q, n - 1) + Row(q, n - 1)
  }

  /** Packed byte `i * vbpl + k` is byte `k` of scanline `i`. */
  lemma {:induction false} PackedAt(q: DecodedImage, n: nat, i: nat, k: nat)
    requires WellFormed(q) && n <= q.Height()
    requires i < n && k < ValidBytesPerLine(q)
    ensures i * ValidBytesPerLine(q) + k < |Packed(q, n)|
    ensures Packed(q, n)[i * ValidBytesPerLine(q) + k] == q.scanlines[i][k]
  {
    var w := ValidBytesPerLine(q);
    RowInside(i, k + 1, n, w);
    if i < n - 1 {
      PackedAt(q, n - 1, i, k);
    } else {
      assert |Packed(q, n - 1)| == i * w;
    }
  }

  /** The row-packing loop of `readimage`: copies the pixel bytes of each
      scanline into a buffer of `height * vbpl` bytes, one row after the
      other, dropping the padding. */
  method PackScanlines(q: DecodedImage) returns (packed: Bytes)
    requires WellFormed(q)
    ensures packed == Packed(q, q.Height())
    ensures |packed| == q.Height() * ValidBytesPerLine(q)
  {
    var validBytesPerLine := q.width * q.depth / 8;
    var buf := new Byte[q.Height() * validBytesPerLine];
    var i := 0;
    while i < q.Height()
      invariant 0 <= i <= q.Height()
      invariant i * validBytesPerLine <= buf.Length
      invariant buf[..i * validBytesPerLine] == Packed(q, i)
    {
      var off := i * validBytesPerLine;
      RowInside(i, validBytesPerLine, q.Height(), validBytesPerLine);
      MulStep(i, validBytesPerLine);
      var line := q.scanlines[i];
      // memcpy of one scanline's pixel bytes
      forall k | 0 <= k < validBytesPerLine {
        buf[off + k] := line[k];
      }
      assert buf[..off + validBytesPerLine] == buf[..off] + Row(q, i);
      i := i + 1;
    }
    packed := buf[..];
  }

  /** Narrowing of a C `int` to `uint16_t`. */
  function ToUInt16(x: nat): (r: UInt16)
    ensures x < 0x1_0000 ==> r == x
  {
    x % 0x1_0000
  }

  /** `readimage`: a picture that cannot be loaded gives the default image;
      otherwise the image carries the dimensions (narrowed to the fields'
      widths) and the unpadded raster. */
  method ReadImage(decoded: Option<DecodedImage>) returns (img: Image)
    requires decoded.Some? ==> WellFormed(decoded.value)
    ensures decoded.None? ==> img == DefaultImage()
    ensures decoded.Some? ==>
      var q := decoded.value;
      && img.width == ToUInt16(q.width) && img.height == ToUInt16(q.Height())
      && img.depth == q.depth % 256
      && img.data == Packed(q, q.Height())
  {
    if decoded.None? {
      return DefaultImage();
    }
    var q := decoded.value;
    var data := PackScanlines(q);
    img := Image(ToUInt16(q.width), ToUInt16(q.Height()), q.depth % 256, data);
  }

  /** For 8- and 24-bit pictures whose dimensions fit their fields, the
      image's `size()` is exactly the length of its raster. */
  lemma SizeMatchesRaster(q: DecodedImage, img: Image)
    requires WellFormed(q) && (q.depth == 8 || q.depth == 24)
    requires q.width < 0x1_0000 && q.Height() < 0x1_0000
    requires img == Image(ToUInt16(q.width), ToUInt16(q.Height()), q.depth % 256, Packed(q, q.Height()))
    requires img.width * img.height * (img.depth / 8) <= IntMax
    ensures img.width * img.height <= IntMax
    ensures Size(img) == |img.data|
  {
    var w, h := q.width, q.Height();
    assert img.width == w && img.height == h;
    assert |img.data| == h * ValidBytesPerLine(q);
    if q.depth == 8 {
      assert ValidBytesPerLine(q) == w;
      assert Size(img) == w * h;
    } else {
      assert ValidBytesPerLine(q) == 3 * w;
      assert Size(img) == 3 * w * h;
      assert w * h <= 3 * w * h;
    }
  }
}
