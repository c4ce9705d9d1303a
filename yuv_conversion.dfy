/** The YUV_420_888 to NV21 repack of YuvToRgbConverter.kt and the converter that
    feeds the repacked bytes to the platform's YUV-to-RGB intrinsic. */
module YuvConversion {
  import opened Wrappers

  /** Kotlin's signed 8-bit `Byte`; the repack only copies bytes, so their sign
      never matters. */
  newtype Byte = b: int | -128 <= b < 128

  /** One plane of a YUV_420_888 image: the plane's ByteBuffer from position 0 up
      to its limit, with the plane's row stride and pixel stride. */
  datatype Plane = Plane(buffer: seq<Byte>, rowStride: nat, pixelStride: nat)

  /** A camera frame (ImageProxy) in YUV_420_888: planes[0] is luma (Y),
      planes[1] is U (Cb) and planes[2] is V (Cr). */
  datatype YuvImage = YuvImage(width: nat, height: nat, y: Plane, u: Plane, v: Plane)

  /** The length of the array the repack allocates: `ySize + uvSize * 2` with
      `ySize = width * height` and `uvSize = ySize / 4` rounded down
      (Nv21SizeIsSourceSize). */
  function Nv21Size(width: nat, height: nat): nat {
    var ySize := Offset(height, width);
    ySize + (ySize / 4) * 2
  }

  /** Where the repack's cursor stops: one byte per luma sample plus a V and a U
      byte for each of the (height / 2) * (width / 2) chroma samples. */
  function CursorEnd(width: nat, height: nat): nat {
    Offset(height, width) + 2 * Offset(height / 2, width / 2)
  }

  /** `count * size`: where element `count` of a run of `size`-byte elements
      starts, such as the start of a row. It is written as a running sum, the
      way the repack's cursor advances, and OffsetIsProduct equates it with the
      product. */
  function Offset(count: nat, size: nat): nat {
    if count == 0 then 0 else Offset(count - 1, size) + size
  }

  lemma {:induction false} OffsetIsProduct(count: nat, size: nat)
    ensures Offset(count, size) == count * size
  {
    if count > 0 {
      OffsetIsProduct(count - 1, size);
    }
  }

  lemma {:induction false} OffsetMono(a: nat, b: nat, size: nat)
    requires a <= b
    ensures Offset(a, size) <= Offset(b, size)
  {
    if a < b {
      OffsetMono(a, b - 1, size);
    }
  }

  /** `row * stride`, the buffer position the repack seeks to for a row. */
  function RowStart(row: nat, stride: nat): (r: nat)
    ensures r == Offset(row, stride)
  {
    OffsetIsProduct(row, stride);
    row * stride
  }

  /** Byte `col` of row `row` lies before row `rows` when row < rows. */
  lemma RowBefore(row: nat, rows: nat, size: nat, col: nat)
    requires row < rows && col < size
    ensures Offset(row, size) + col < Offset(rows, size)
  {
    OffsetMono(row + 1, rows, size);
  }

  // ---------------------------------------------------------------------------
  // When the ByteBuffer reads succeed

  /** Luma row `row` can be read: `position(row * yRowStride)` stays within the
      limit and the bulk `get` of `width` bytes does not underflow. */
  predicate LumaRowReadable(image: YuvImage, row: nat) {
    Offset(row, image.y.rowStride) + image.width <= |image.y.buffer|
  }

  /** Chroma row `row` can be read from both chroma planes. Both are positioned at
      `row * uvRowStride`, where uvRowStride is plane 1's stride, and then read
      `width / 2` consecutive bytes each. */
  predicate ChromaRowReadable(image: YuvImage, row: nat) {
    && Offset(row, image.u.rowStride) + image.width / 2 <= |image.u.buffer|
    && Offset(row, image.u.rowStride) + image.width / 2 <= |image.v.buffer|
  }

  /** Luma rows 0 .. rows-1 can all be read. Row starts only grow with the row
      number, so it is enough that the last of them fits (LumaRowsFitBelow). */
  predicate LumaRowsFit(image: YuvImage, rows: nat) {
    rows == 0 || LumaRowReadable(image, rows - 1)
  }

  /** Chroma rows 0 .. rows-1 can all be read; as for luma, the last one
      decides (ChromaRowsFitBelow). */
  predicate ChromaRowsFit(image: YuvImage, rows: nat) {
    rows == 0 || ChromaRowReadable(image, rows - 1)
  }

  /** Every buffer access of the repack succeeds (ReadableIffAllRows): all
      `height` luma rows and all `height / 2` chroma rows can be read. */
  predicate Readable(image: YuvImage) {
    LumaRowsFit(image, image.height) && ChromaRowsFit(image, image.height / 2)
  }

  lemma LumaRowsFitBelow(image: YuvImage, rows: nat, row: nat)
    requires row < rows
    ensures LumaRowsFit(image, rows) ==> LumaRowReadable(image, row)
  {
    OffsetMono(row, rows - 1, image.y.rowStride);
  }

  lemma ChromaRowsFitBelow(image: YuvImage, rows: nat, row: nat)
    requires row < rows
    ensures ChromaRowsFit(image, rows) ==> ChromaRowReadable(image, row)
  {
    OffsetMono(row, rows - 1, image.u.rowStride);
  }

  /** Dropping the last row keeps the rows readable. */
  lemma LumaRowsFitShrink(image: YuvImage, rows: nat)
    requires rows > 0 && LumaRowsFit(image, rows)
    ensures LumaRowsFit(image, rows - 1) && LumaRowReadable(image, rows - 1)
  {
    if rows > 1 {
      LumaRowsFitBelow(image, rows, rows - 2);
    }
  }

  lemma ChromaRowsFitShrink(image: YuvImage, rows: nat)
    requires rows > 0 && ChromaRowsFit(image, rows)
    ensures ChromaRowsFit(image, rows - 1) && ChromaRowReadable(image, rows - 1)
  {
    if rows > 1 {
      ChromaRowsFitBelow(image, rows, rows - 2);
    }
  }

  // ---------------------------------------------------------------------------
  // The repacked bytes, as a function of the frame

  /** The `width` bytes copied for luma row `row`; the stride padding after them
      is skipped. */
  function LumaRow(image: YuvImage, row: nat): (r: seq<Byte>)
    requires LumaRowReadable(image, row)
    ensures |r| == image.width
  {
    var start := Offset(row, image.y.rowStride);
    image.y.buffer[start .. start + image.width]
  }

  /** The luma rows 0 .. rows-1, one after the other. */
  function LumaRows(image: YuvImage, rows: nat): (r: seq<Byte>)
    requires LumaRowsFit(image, rows)
    ensures |r| == Offset(rows, image.width)
  {
    if rows == 0 then []
    else
      LumaRowsFitShrink(image, rows);
      LumaRows(image, rows - 1) + LumaRow(image, rows - 1)
  }

  /** `count` byte pairs taken from `start` on: first[start], second[start],
      first[start + 1], second[start + 1], ... */
  function Interleave(first: seq<Byte>, second: seq<Byte>, start: nat, count: nat): (r: seq<Byte>)
    requires start + count <= |first| && start + count <= |second|
    ensures |r| == 2 * count
  {
    if count == 0 then []
    else Interleave(first, second, start, count - 1) + [first[start + count - 1], second[start + count - 1]]
  }

  /** Chroma row `row` in NV21 order: the `width / 2` bytes of each chroma
      plane from `row * uvRowStride` on (plane 1's stride, pixel stride 1),
      paired with V before U. */
  function ChromaRow(image: YuvImage, row: nat): (r: seq<Byte>)
    requires ChromaRowReadable(image, row)
    ensures |r| == 2 * (image.width / 2)
  {
    var start, half := Offset(row, image.u.rowStride), image.width / 2;
    Interleave(image.v.buffer, image.u.buffer, start, half)
  }

  /** The chroma rows 0 .. rows-1, one after the other. */
  function ChromaRows(image: YuvImage, rows: nat): (r: seq<Byte>)
    requires ChromaRowsFit(image, rows)
    ensures |r| == 2 * Offset(rows, image.width / 2)
  {
    if rows == 0 then []
    else
      ChromaRowsFitShrink(image, rows);
      ChromaRows(image, rows - 1) + ChromaRow(image, rows - 1)
  }

  /** The NV21 array the repack returns: the luma rows, then the interleaved
      chroma rows, then the zero bytes that the rounding of the allocated size
      leaves unwritten. */
  function Nv21(image: YuvImage): (r: seq<Byte>)
    requires Readable(image)
    ensures |r| == Nv21Size(image.width, image.height)
  {
    CursorEndFits(image.width, image.height);
    var written := LumaRows(image, image.height) + ChromaRows(image, image.height / 2);
    written + seq(Nv21Size(image.width, image.height) - |written|, _ => 0 as Byte)
  }

  /** The allocated size is the source's `width * height + (width * height / 4) * 2`. */
  lemma Nv21SizeIsSourceSize(width: nat, height: nat)
    ensures Nv21Size(width, height) == width * height + (width * height / 4) * 2
  {
    OffsetIsProduct(height, width);
  }

  /** The cursor never runs past the allocated array; it reaches its end exactly
      when width and height are even. */
  lemma CursorEndFits(width: nat, height: nat)
    ensures CursorEnd(width, height) <= Nv21Size(width, height)
    ensures width % 2 == 0 && height % 2 == 0 ==> CursorEnd(width, height) == Nv21Size(width, height)
  {
    OffsetIsProduct(height, width);
    OffsetIsProduct(height / 2, width / 2);
    QuarterRoundsDown(width, height);
  }

  /** The chroma samples take at most a quarter of the luma samples, and
      exactly a quarter when both sides are even. */
  lemma QuarterRoundsDown(width: nat, height: nat)
    ensures (height / 2) * (width / 2) <= width * height / 4
    ensures width % 2 == 0 && height % 2 == 0 ==> (height / 2) * (width / 2) == width * height / 4
  {
    var h, w := height / 2, width / 2;
    var hr, wr := height % 2, width % 2;
    assert height == 2 * h + hr && width == 2 * w + wr;
    assert width * height == 4 * (h * w) + 2 * (h * wr) + 2 * (w * hr) + wr * hr;
  }

  /** A byte sequence of the allocated size that starts with the luma rows and
      the chroma rows and is zero after them is the NV21 array. */
  lemma Nv21Assembled(image: YuvImage, bytes: seq<Byte>, pos: nat)
    requires Readable(image)
    requires |bytes| == Nv21Size(image.width, image.height) && pos <= |bytes|
    requires bytes[..pos] == LumaRows(image, image.height) + ChromaRows(image, image.height / 2)
    requires forall i :: pos <= i < |bytes| ==> bytes[i] == 0
    ensures bytes == Nv21(image)
  {
    assert bytes[pos..] == seq(|bytes| - pos, _ => 0 as Byte);
    assert bytes == bytes[..pos] + bytes[pos..];
  }

  // ---------------------------------------------------------------------------
  // The repack itself

  /** `ByteBuffer.get(dst, offset, length)` on a buffer positioned at `from`:
      copies `length` bytes into `dst` starting at `offset`. */
  method BulkGet(src: seq<Byte>, from: nat, dst: array<Byte>, offset: nat, length: nat)
    requires from + length <= |src| && offset + length <= dst.Length
    modifies dst
    ensures dst[..offset + length] == old(dst[..offset]) + src[from .. from + length]
    ensures forall i :: offset + length <= i < dst.Length ==> dst[i] == old(dst[i])
  {
    forall k | 0 <= k < length {
      dst[offset + k] := src[from + k];
    }
    assert dst[..offset + length] == dst[..offset] + dst[offset .. offset + length];
  }

  /** One chroma row of the repack, with both buffers positioned at `start`:
      `half` times, a V byte then a U byte, each taken by a relative `get()`
      that advances its buffer's position. */
  method InterleaveChromaRow(v: seq<Byte>, u: seq<Byte>, start: nat, half: nat, nv21: array<Byte>, pos0: nat)
    returns (pos: nat)
    requires start + half <= |v| && start + half <= |u|
    requires pos0 + 2 * half <= nv21.Length
    modifies nv21
    ensures pos == pos0 + 2 * half
    ensures nv21[..pos] == old(nv21[..pos0]) + Interleave(v, u, start, half)
    ensures forall i :: pos <= i < nv21.Length ==> nv21[i] == old(nv21[i])
  {
    var uPosition := start;
    var vPosition := start;
    pos := pos0;
    var col := 0;
    while col < half
      invariant col <= half
      invariant uPosition == start + col && vPosition == start + col
      invariant pos == pos0 + 2 * col
      invariant nv21[..pos] == old(nv21[..pos0]) + Interleave(v, u, start, col)
      invariant forall i :: pos <= i < nv21.Length ==> nv21[i] == old(nv21[i])
    {
      ghost var done := nv21[..pos];
      nv21[pos] := v[vPosition];
      vPosition := vPosition + 1;
      pos := pos + 1;
      nv21[pos] := u[uPosition];
      uPosition := uPosition + 1;
      pos := pos + 1;
      assert nv21[..pos] == done + [v[start + col], u[start + col]];
      col := col + 1;
    }
  }

  /** The luma half of the repack: for every row, `position(row * yRowStride)`
      and one bulk `get` of `width` bytes at the cursor. `ok` is false when one
      of these buffer calls throws. */
  method CopyLumaPlane(image: YuvImage, nv21: array<Byte>) returns (ok: bool, pos: nat)
    requires Offset(image.height, image.width) <= nv21.Length
    modifies nv21
    ensures ok <==> LumaRowsFit(image, image.height)
    ensures ok ==> pos == Offset(image.height, image.width)
    ensures ok ==> nv21[..pos] == LumaRows(image, image.height)
    ensures ok ==> forall i :: pos <= i < nv21.Length ==> nv21[i] == old(nv21[i])
  {
    var width := image.width;
    var height := image.height;
    var yBuffer := image.y.buffer;
    var yRowStride := image.y.rowStride;
    pos := 0;
    var row := 0;
    while row < height
      invariant row <= height
      invariant pos == Offset(row, width) && pos <= nv21.Length
      invariant LumaRowsFit(image, row)
      invariant nv21[..pos] == LumaRows(image, row)
      invariant forall i :: pos <= i < nv21.Length ==> nv21[i] == old(nv21[i])
    {
      var start := RowStart(row, yRowStride);
      if start > |yBuffer| || width > |yBuffer| - start {
        LumaRowsFitBelow(image, height, row);
        return false, pos;
      }
      OffsetMono(row + 1, height, width);
      BulkGet(yBuffer, start, nv21, pos, width);
      assert nv21[..pos + width] == LumaRows(image, row) + LumaRow(image, row);
      pos := pos + width;
      row := row + 1;
    }
    ok := true;
  }

  /** One pass of the chroma loop: both chroma buffers are positioned at
      `row * uvRowStride` (plane 1's stride) and the row is interleaved V first
      at cursor `pos`. `ok` is false when `position` or a `get` throws. */
  method RepackChromaRow(image: YuvImage, row: nat, nv21: array<Byte>, pos: nat, ghost before: seq<Byte>) returns (ok: bool, next: nat)
    requires pos + 2 * (image.width / 2) <= nv21.Length
    requires ChromaRowsFit(image, row) && nv21[..pos] == before + ChromaRows(image, row)
    modifies nv21
    ensures ok <==> ChromaRowReadable(image, row)
    ensures ok ==> next == pos + 2 * (image.width / 2)
    ensures ok ==> ChromaRowsFit(image, row + 1) && nv21[..next] == before + ChromaRows(image, row + 1)
    ensures ok ==> forall i :: next <= i < nv21.Length ==> nv21[i] == old(nv21[i])
  {
    ghost var done := nv21[..pos];
    var half := image.width / 2;
    var start := RowStart(row, image.u.rowStride);
    if start + half > |image.u.buffer| || start + half > |image.v.buffer| {
      return false, pos;
    }
    next := InterleaveChromaRow(image.v.buffer, image.u.buffer, start, half, nv21, pos);
    ChromaRowsExtend(image, row, before, done, nv21[..next]);
    ok := true;
  }

  /** The chroma half of the repack, from cursor `pos0`: every chroma row in
      turn. `ok` is false when a buffer call throws. */
  method InterleaveChromaPlanes(image: YuvImage, nv21: array<Byte>, pos0: nat) returns (ok: bool, pos: nat)
    requires pos0 + 2 * Offset(image.height / 2, image.width / 2) <= nv21.Length
    modifies nv21
    ensures ok <==> ChromaRowsFit(image, image.height / 2)
    ensures ok ==> pos == pos0 + 2 * Offset(image.height / 2, image.width / 2)
    ensures ok ==> nv21[..pos] == old(nv21[..pos0]) + ChromaRows(image, image.height / 2)
    ensures ok ==> forall i :: pos <= i < nv21.Length ==> nv21[i] == old(nv21[i])
  {
    var rows, half := image.height / 2, image.width / 2;
    ghost var before := nv21[..pos0];
    pos := pos0;
    var row := 0;
    while row < rows
      invariant row <= rows
      invariant pos == pos0 + 2 * Offset(row, half) && pos <= nv21.Length
      invariant ChromaRowsFit(image, row)
      invariant nv21[..pos] == before + ChromaRows(image, row)
      invariant forall i :: pos <= i < nv21.Length ==> nv21[i] == old(nv21[i])
    {
      OffsetMono(row + 1, rows, half);
      var rowOk, next := RepackChromaRow(image, row, nv21, pos, before);
      if !rowOk {
        ChromaRowsFitBelow(image, rows, row);
        return false, pos;
      }
      pos := next;
      row := row + 1;
    }
    ok := true;
  }

  /** Appending chroma row `row` to the bytes written for rows 0 .. row-1
      gives the bytes for rows 0 .. row. */
  lemma ChromaRowsExtend(image: YuvImage, row: nat, before: seq<Byte>, done: seq<Byte>, after: seq<Byte>)
    requires ChromaRowsFit(image, row) && ChromaRowReadable(image, row)
    requires done == before + ChromaRows(image, row)
    requires after == done + ChromaRow(image, row)
    ensures after == before + ChromaRows(image, row + 1)
  {
    assert ChromaRows(image, row + 1) == ChromaRows(image, row) + ChromaRow(image, row);
  }

  /** `yuv420888ToNv21`: allocates a zeroed byte array of Nv21Size
      (`ySize + uvSize * 2`) and fills it through a cursor `pos`, first with
      the luma rows and then with the interleaved chroma rows.

      Result: `None` when a buffer access throws (a `position` beyond the limit,
      or a `get` past it), `Some` of the array otherwise. */
  method Yuv420888ToNv21(image: YuvImage) returns (r: Option<array<Byte>>)
    ensures r.Some? <==> Readable(image)
    ensures r.Some? ==> r.value[..] == Nv21(image)
  {
    var width := image.width;
    var height := image.height;
    var nv21 := new Byte[Nv21Size(width, height)](_ => 0);
    CursorEndFits(width, height);

    var ok, pos := CopyLumaPlane(image, nv21);
    if !ok {
      return None;
    }
    assert forall i :: pos <= i < nv21.Length ==> nv21[i] == 0;
    ok, pos := InterleaveChromaPlanes(image, nv21, pos);
    if !ok {
      return None;
    }
    Nv21Assembled(image, nv21[..], pos);
    return Some(nv21);
  }

  // ---------------------------------------------------------------------------
  // What the repacked bytes are

  lemma {:induction false} LumaRowsAt(image: YuvImage, rows: nat, row: nat, col: nat)
    requires LumaRowsFit(image, rows)
    requires row < rows && col < image.width
    ensures Offset(row, image.width) + col < |LumaRows(image, rows)|
    ensures Offset(row, image.y.rowStride) + col < |image.y.buffer|
    ensures LumaRows(image, rows)[Offset(row, image.width) + col]
            == image.y.buffer[Offset(row, image.y.rowStride) + col]
  {
    LumaRowsFitShrink(image, rows);
    var earlier, last := LumaRows(image, rows - 1), LumaRow(image, rows - 1);
    assert LumaRows(image, rows) == earlier + last;
    RowBefore(row, rows, image.width, col);
    if row < rows - 1 {
      RowBefore(row, rows - 1, image.width, col);
      LumaRowsAt(image, rows - 1, row, col);
    }
  }

  lemma {:induction false} InterleaveAt(first: seq<Byte>, second: seq<Byte>, start: nat, count: nat, k: nat)
    requires start + count <= |first| && start + count <= |second| && k < count
    ensures Interleave(first, second, start, count)[2 * k] == first[start + k]
    ensures Interleave(first, second, start, count)[2 * k + 1] == second[start + k]
  {
    if k < count - 1 {
      InterleaveAt(first, second, start, count - 1, k);
    }
  }

  /** Byte pair `col` of chroma row `row` is V then U, both read at
      `row * uvRowStride + col`. */
  lemma ChromaRowAt(image: YuvImage, row: nat, col: nat)
    requires ChromaRowReadable(image, row) && col < image.width / 2
    ensures Offset(row, image.u.rowStride) + col < |image.v.buffer|
    ensures Offset(row, image.u.rowStride) + col < |image.u.buffer|
    ensures ChromaRow(image, row)[2 * col] == image.v.buffer[Offset(row, image.u.rowStride) + col]
    ensures ChromaRow(image, row)[2 * col + 1] == image.u.buffer[Offset(row, image.u.rowStride) + col]
  {
    var start, half := Offset(row, image.u.rowStride), image.width / 2;
    InterleaveAt(image.v.buffer, image.u.buffer, start, half, col);
  }

  lemma {:induction false} ChromaRowsAt(image: YuvImage, rows: nat, row: nat, col: nat)
    requires ChromaRowsFit(image, rows)
    requires row < rows && col < image.width / 2
    ensures 2 * (Offset(row, image.width / 2) + col) + 1 < |ChromaRows(image, rows)|
    ensures Offset(row, image.u.rowStride) + col < |image.v.buffer|
    ensures Offset(row, image.u.rowStride) + col < |image.u.buffer|
    ensures ChromaRows(image, rows)[2 * (Offset(row, image.width / 2) + col)]
            == image.v.buffer[Offset(row, image.u.rowStride) + col]
    ensures ChromaRows(image, rows)[2 * (Offset(row, image.width / 2) + col) + 1]
            == image.u.buffer[Offset(row, image.u.rowStride) + col]
  {
    var half := image.width / 2;
    ChromaRowsFitShrink(image, rows);
    var earlier, last := ChromaRows(image, rows - 1), ChromaRow(image, rows - 1);
    assert ChromaRows(image, rows) == earlier + last;
    RowBefore(row, rows, half, col);
    if row < rows - 1 {
      RowBefore(row, rows - 1, half, col);
      ChromaRowsAt(image, rows - 1, row, col);
    } else {
      ChromaRowAt(image, row, col);
    }
  }

  /** Luma sample (row, col) lands at `row * width + col`: byte `col` of row
      `row` of the Y plane, read at `row * yRowStride + col`; the bytes between
      `width` and `yRowStride` of every row are never copied. */
  lemma LumaSample(image: YuvImage, row: nat, col: nat)
    requires Readable(image)
    requires row < image.height && col < image.width
    ensures var k, s := row * image.width + col, row * image.y.rowStride + col;
      0 <= k < |Nv21(image)| && 0 <= s < |image.y.buffer| && Nv21(image)[k] == image.y.buffer[s]
  {
    LumaRowsAt(image, image.height, row, col);
    OffsetIsProduct(row, image.width);
    OffsetIsProduct(row, image.y.rowStride);
  }

  /** After the `width * height` luma bytes come the chroma rows. */
  lemma ChromaRegion(image: YuvImage, j: nat)
    requires Readable(image)
    requires j < |ChromaRows(image, image.height / 2)|
    ensures Offset(image.height, image.width) + j < |Nv21(image)|
    ensures Nv21(image)[Offset(image.height, image.width) + j] == ChromaRows(image, image.height / 2)[j]
  {
    CursorEndFits(image.width, image.height);
  }

  /** Chroma sample (row, col) becomes the pair at `width * height + 2 * (row *
      (width / 2) + col)`, and its first byte is V, read at `row * uvRowStride +
      col` with plane 1's row stride. */
  lemma ChromaSampleV(image: YuvImage, row: nat, col: nat)
    requires Readable(image)
    requires row < image.height / 2 && col < image.width / 2
    ensures var k, s := image.width * image.height + 2 * (row * (image.width / 2) + col), row * image.u.rowStride + col;
      0 <= k < |Nv21(image)| && 0 <= s < |image.v.buffer| && Nv21(image)[k] == image.v.buffer[s]
  {
    var j := 2 * (Offset(row, image.width / 2) + col);
    ChromaRowsAt(image, image.height / 2, row, col);
    ChromaRegion(image, j);
    assert Nv21(image)[Offset(image.height, image.width) + j] == ChromaRows(image, image.height / 2)[j];
    OffsetIsProduct(image.height, image.width);
    OffsetIsProduct(row, image.width / 2);
    OffsetIsProduct(row, image.u.rowStride);
  }

  /** The second byte of the pair for chroma sample (row, col) is U, read at the
      same offset `row * uvRowStride + col` of plane 1. */
  lemma ChromaSampleU(image: YuvImage, row: nat, col: nat)
    requires Readable(image)
    requires row < image.height / 2 && col < image.width / 2
    ensures var k, s := image.width * image.height + 2 * (row * (image.width / 2) + col) + 1, row * image.u.rowStride + col;
      0 <= k < |Nv21(image)| && 0 <= s < |image.u.buffer| && Nv21(image)[k] == image.u.buffer[s]
  {
    ChromaRowsAt(image, image.height / 2, row, col);
    ChromaRegion(image, 2 * (Offset(row, image.width / 2) + col) + 1);
    OffsetIsProduct(image.height, image.width);
    OffsetIsProduct(row, image.width / 2);
    OffsetIsProduct(row, image.u.rowStride);
  }

  /** The bytes from the cursor's final position to the end of the array are
      never written and keep the array's initial zero. */
  lemma TrailingBytesZero(image: YuvImage, i: nat)
    requires Readable(image)
    requires CursorEnd(image.width, image.height) <= i < Nv21Size(image.width, image.height)
    ensures Nv21(image)[i] == 0
  {
    var written := LumaRows(image, image.height) + ChromaRows(image, image.height / 2);
    CursorEndFits(image.width, image.height);
    assert |written| == CursorEnd(image.width, image.height);
    assert Nv21(image)[i] == Nv21(image)[|written| + (i - |written|)];
  }

  /** Readable says that every buffer access of the repack succeeds: every luma
      row and every chroma row can be read. */
  lemma ReadableIffAllRows(image: YuvImage)
    ensures Readable(image) <==>
      && (forall row: nat :: row < image.height ==> LumaRowReadable(image, row))
      && (forall row: nat :: row < image.height / 2 ==> ChromaRowReadable(image, row))
  {
    forall row: nat | row < image.height
      ensures LumaRowsFit(image, image.height) ==> LumaRowReadable(image, row)
    {
      LumaRowsFitBelow(image, image.height, row);
    }
    forall row: nat | row < image.height / 2
      ensures ChromaRowsFit(image, image.height / 2) ==> ChromaRowReadable(image, row)
    {
      ChromaRowsFitBelow(image, image.height / 2, row);
    }
  }

  /** The repack succeeds exactly when the last luma row and the last chroma row
      fit in their buffers, in the products the source computes. */
  lemma ReadableWhenLastRowsFit(image: YuvImage)
    ensures Readable(image) <==>
      && (image.height == 0 || (image.height - 1) * image.y.rowStride + image.width <= |image.y.buffer|)
      && (image.height / 2 == 0 || ((image.height / 2 - 1) * image.u.rowStride + image.width / 2 <= |image.u.buffer|
                                    && (image.height / 2 - 1) * image.u.rowStride + image.width / 2 <= |image.v.buffer|))
  {
    if image.height > 0 {
      OffsetIsProduct(image.height - 1, image.y.rowStride);
    }
    if image.height / 2 > 0 {
      OffsetIsProduct(image.height / 2 - 1, image.u.rowStride);
    }
  }

  lemma {:induction false} LumaRowsSamePlane(a: YuvImage, b: YuvImage, rows: nat)
    requires a.width == b.width && a.y.buffer == b.y.buffer && a.y.rowStride == b.y.rowStride
    requires LumaRowsFit(a, rows)
    ensures LumaRowsFit(b, rows)
    ensures LumaRows(a, rows) == LumaRows(b, rows)
  {
    if rows > 0 {
      LumaRowsFitShrink(a, rows);
      LumaRowsSamePlane(a, b, rows - 1);
    }
  }

  lemma {:induction false} ChromaRowsSameBytes(a: YuvImage, b: YuvImage, rows: nat)
    requires a.width == b.width && a.u.rowStride == b.u.rowStride
    requires a.u.buffer == b.u.buffer && a.v.buffer == b.v.buffer
    requires ChromaRowsFit(a, rows)
    ensures ChromaRowsFit(b, rows)
    ensures ChromaRows(a, rows) == ChromaRows(b, rows)
  {
    if rows > 0 {
      ChromaRowsFitShrink(a, rows);
      ChromaRowsSameBytes(a, b, rows - 1);
    }
  }

  /** The repack looks at neither plane 2's row stride nor any plane's pixel
      stride: frames that differ only in those give the same NV21 bytes, so a
      chroma plane with pixel stride 2 is read as if it were packed. */
  lemma StridesIgnored(image: YuvImage, vRowStride: nat, yPixelStride: nat, uPixelStride: nat, vPixelStride: nat)
    requires Readable(image)
    ensures var other := image.(y := image.y.(pixelStride := yPixelStride),
                                u := image.u.(pixelStride := uPixelStride),
                                v := image.v.(rowStride := vRowStride, pixelStride := vPixelStride));
            Readable(other) && Nv21(other) == Nv21(image)
  {
    var other := image.(y := image.y.(pixelStride := yPixelStride),
                        u := image.u.(pixelStride := uPixelStride),
                        v := image.v.(rowStride := vRowStride, pixelStride := vPixelStride));
    LumaRowsSamePlane(image, other, image.height);
    ChromaRowsSameBytes(image, other, image.height / 2);
  }

  // ---------------------------------------------------------------------------
  // The converter

  /** An ARGB_8888 `android.graphics.Bitmap`: fixed dimensions and packed pixel
      values that the converter overwrites in place. */
  class Bitmap {
    const width: nat
    const height: nat
    var pixels: seq<int>

    /** `Bitmap.createBitmap(width, height, ARGB_8888)`: a new, fully
        transparent bitmap; the platform refuses empty dimensions. */
    constructor (width: nat, height: nat)
      requires width > 0 && height > 0
      ensures this.width == width && this.height == height
      ensures pixels == seq(width * height, _ => 0)
    {
      this.width := width;
      this.height := height;
      pixels := seq(width * height, _ => 0);
    }
  }

  /** `YuvToRgbConverter`: the repack feeding the platform's YUV-to-RGB
      intrinsic, whose transform is not visible and is given as `intrinsic`:
      from the NV21 bytes and the output bitmap's dimensions to its pixels. */
  class YuvToRgbConverter {
    const intrinsic: (seq<Byte>, nat, nat) -> seq<int>

    constructor (intrinsic: (seq<Byte>, nat, nat) -> seq<int>)
      ensures this.intrinsic == intrinsic
    {
      this.intrinsic := intrinsic;
    }

    /** The pixels `yuvToRgb` leaves in a bitmap of the given dimensions. */
    function Converted(image: YuvImage, width: nat, height: nat): seq<int>
      requires Readable(image)
    {
      intrinsic(Nv21(image), width, height)
    }

    /** `yuvToRgb(image, output)`: repacks the frame to NV21 and runs the
        intrinsic over it into `output`. `ok` is false when the repack throws,
        and then the bitmap is untouched. */
    method YuvToRgb(image: YuvImage, output: Bitmap) returns (ok: bool)
      modifies output
      ensures ok <==> Readable(image)
      ensures ok ==> output.pixels == Converted(image, output.width, output.height)
      ensures !ok ==> unchanged(output)
    {
      var nv21 := Yuv420888ToNv21(image);
      if nv21.None? {
        return false;
      }
      output.pixels := intrinsic(nv21.value[..], output.width, output.height);
      ok := true;
    }
  }
}
