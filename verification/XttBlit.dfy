/** blit_stream of X-TrueType's xttblit.c: a stream of bits ORed into a raster map through a shift accumulator, for a
    map that flows down and source rows that are padded to bytes. */
module XttBlit {
  import opened XttBits

  // ----- pixels

  // Bit x of the row that starts at byte `at`.
  predicate Pixel(bytes: seq<bv8>, at: nat, x: nat)
    requires at + x / 8 < |bytes|
  {
    Bit(bytes[at + x / 8], x % 8)
  }

  /** The source row that starts at byte `row` has bit x set; there is nothing left of it nor beyond `bits`. */
  predicate SourceBit(source: seq<bv8>, row: nat, bits: int, x: int)
    requires row + (bits + 7) / 8 <= |source|
  {
    0 <= x < bits && Pixel(source, row, x)
  }

  // Columns are ORed with the eight bits of val from column `left` on; the rest of the map is as it was.
  ghost predicate Painted(was: seq<bv8>, now: seq<bv8>, at: nat, cols: nat, left: int, val: bv8)
    requires |was| == |now| && at + cols <= |was|
  {
    && (forall i | 0 <= i < |was| && !(at <= i < at + cols) :: now[i] == was[i])
    && (forall x | 0 <= x < 8 * cols ::
          Pixel(now, at, x) <==> Pixel(was, at, x) || (0 <= x - left < 8 && Bit(val, x - left)))
  }

  // The two statements that write a byte into the map, at column 8 * byteCount + shift.
  method PutByte(map_: array<bv8>, at: nat, cols: nat, byteCount: nat, shift: nat, val: bv8)
    requires at + cols <= map_.Length && shift < 8
    modifies map_
    ensures Painted(old(map_[..]), map_[..], at, cols, 8 * byteCount + shift, val)
  {
    ghost var was := map_[..];
    if byteCount < cols {
      map_[at + byteCount] := map_[at + byteCount] | Shr(val, shift);
      if byteCount < cols - 1 {
        map_[at + byteCount + 1] := map_[at + byteCount + 1] | Shl(val, 8 - shift);
      }
    }
    forall x | 0 <= x < 8 * cols
      ensures Pixel(map_[..], at, x) <==>
              Pixel(was, at, x) || (0 <= x - (8 * byteCount + shift) < 8 && Bit(val, x - (8 * byteCount + shift)))
    {
      PutAt(was, map_[..], at, cols, byteCount, shift, val, x);
    }
  }

  lemma PutAt(was: seq<bv8>, now: seq<bv8>, at: nat, cols: nat, byteCount: nat, shift: nat, val: bv8, x: nat)
    requires |was| == |now| && at + cols <= |was| && shift < 8 && x < 8 * cols
    requires forall i | at <= i < at + cols && i != at + byteCount && i != at + byteCount + 1 :: now[i] == was[i]
    requires byteCount < cols ==> now[at + byteCount] == was[at + byteCount] | Shr(val, shift)
    requires byteCount + 1 < cols ==> now[at + byteCount + 1] == was[at + byteCount + 1] | Shl(val, 8 - shift)
    ensures Pixel(now, at, x) <==>
            Pixel(was, at, x) || (0 <= x - (8 * byteCount + shift) < 8 && Bit(val, x - (8 * byteCount + shift)))
  {
    hide Bit, Shr, Shl;
    if x / 8 == byteCount {
      OrBit(was[at + byteCount], Shr(val, shift), x % 8);
      ShrBit(val, shift, x % 8);
      assert x == 8 * byteCount + x % 8;
    } else if x / 8 == byteCount + 1 {
      OrBit(was[at + byteCount + 1], Shl(val, 8 - shift), x % 8);
      ShlBit(val, 8 - shift, x % 8);
      assert x == 8 * byteCount + 8 + x % 8;
    } else {
      assert now[at + x / 8] == was[at + x / 8];
    }
  }

  /** The reader: the next `loaded` bits of the row are the topmost of acc, the rest of acc is clear, and `src` is the
      byte after them; `pos` bits are behind. */
  ghost predicate Reader(source: seq<bv8>, row: nat, acc: Acc, loaded: nat, src: nat, pos: nat) {
    && loaded < 16 && 8 * src == 8 * row + pos + loaded && src <= |source|
    && (forall i | 0 <= i < loaded :: AccBit(acc, i) == Pixel(source, row, pos + i))
    && (forall i | loaded <= i < 16 :: !AccBit(acc, i))
  }

  // Make sure there are eight bits in acc.
  method Fill(source: seq<bv8>, ghost row: nat, acc: Acc, loaded: nat, src: nat, ghost pos: nat)
    returns (acc': Acc, src': nat)
    requires Reader(source, row, acc, loaded, src, pos) && loaded < 8 && src < |source|
    ensures src' == src + 1 && Reader(source, row, acc', loaded + 8, src', pos)
  {
    hide AccBit, Load, Bit;
    acc' := Load(acc, source[src], loaded);
    src' := src + 1;
    forall i | 0 <= i < 16
      ensures AccBit(acc', i) == if i < loaded + 8 then Pixel(source, row, pos + i) else false
    {
      LoadBit(acc, source[src], loaded, i);
      if loaded <= i < loaded + 8 { assert row + (pos + i) / 8 == src && (pos + i) % 8 == i - loaded; }
    }
  }

  // Take n bits off.
  lemma Taken(source: seq<bv8>, row: nat, acc: Acc, loaded: nat, src: nat, pos: nat, n: nat)
    requires Reader(source, row, acc, loaded, src, pos) && n <= 8 && n <= loaded
    ensures Reader(source, row, Drop(acc, n), loaded - n, src, pos + n)
  {
    hide AccBit, Drop;
    forall i | 0 <= i < 16
      ensures AccBit(Drop(acc, n), i) == if i < loaded - n then Pixel(source, row, pos + n + i) else false
    {
      DropBit(acc, n, i);
      if i < loaded - n { assert AccBit(acc, i + n) == Pixel(source, row, pos + (i + n)); }
    }
  }

  // ----- one line

  // The bits up to pos of the source row are in the map, xOffset further right.
  ghost predicate RowTo(was: seq<bv8>, now: seq<bv8>, at: nat, cols: nat, source: seq<bv8>, row: nat, pos: int, xOffset: int)
    requires |was| == |now| && at + cols <= |was| && row + (pos + 7) / 8 <= |source|
  {
    && (forall i | 0 <= i < |was| && !(at <= i < at + cols) :: now[i] == was[i])
    && (forall x | 0 <= x < 8 * cols :: Pixel(now, at, x) <==> Pixel(was, at, x) || SourceBit(source, row, pos, x - xOffset))
  }

  // A byte that holds the next n bits of the row, and nothing else.
  ghost predicate NextBits(source: seq<bv8>, row: nat, pos: nat, n: nat, val: bv8)
    requires n <= 8 && row + (pos + n + 7) / 8 <= |source|
  {
    forall i | 0 <= i < 8 :: Bit(val, i) == (i < n && Pixel(source, row, pos + i))
  }

  lemma RowFurther(was: seq<bv8>, mid: seq<bv8>, now: seq<bv8>, at: nat, cols: nat, source: seq<bv8>, row: nat,
                   pos: nat, n: nat, xOffset: int, val: bv8)
    requires |was| == |mid| == |now| && at + cols <= |was| && n <= 8 && row + (pos + n + 7) / 8 <= |source|
    requires RowTo(was, mid, at, cols, source, row, pos, xOffset)
    requires NextBits(source, row, pos, n, val) && Painted(mid, now, at, cols, pos + xOffset, val)
    ensures RowTo(was, now, at, cols, source, row, pos + n, xOffset)
  {
    hide Bit, Pixel;
    forall x | 0 <= x < 8 * cols
      ensures Pixel(now, at, x) <==> Pixel(was, at, x) || SourceBit(source, row, pos + n, x - xOffset)
    {
      var i := x - (pos + xOffset);
      if 0 <= i < 8 { assert Bit(val, i) == (i < n && Pixel(source, row, pos + i)); }
    }
  }

  lemma NextByte(source: seq<bv8>, row: nat, acc: Acc, loaded: nat, src: nat, pos: nat, n: nat)
    requires Reader(source, row, acc, loaded, src, pos) && n <= loaded && n <= 8
    requires row + (pos + n + 7) / 8 <= |source|
    ensures NextBits(source, row, pos, n, Top(High(acc), n))
    ensures n == 8 ==> NextBits(source, row, pos, 8, High(acc))
  {
    hide Bit, Top, Pixel;
    forall i | 0 <= i < 8
      ensures Bit(Top(High(acc), n), i) == (i < n && Pixel(source, row, pos + i))
      ensures n == 8 ==> Bit(High(acc), i) == Pixel(source, row, pos + i)
    {
      TopBit(High(acc), n, i);
      assert i < loaded ==> AccBit(acc, i) == Pixel(source, row, pos + i);
    }
  }

  // The last bits of a line, fewer than eight.
  method PutRest(map_: array<bv8>, at: nat, cols: nat, byteCount: nat, shift: nat, val: bv8, count: nat)
    requires at + cols <= map_.Length && shift < 8 && 0 < count < 8
    requires forall i | count <= i < 8 :: !Bit(val, i)
    modifies map_
    ensures Painted(old(map_[..]), map_[..], at, cols, 8 * byteCount + shift, val)
  {
    ghost var was := map_[..];
    var space := 8 - shift;
    if byteCount < cols {
      map_[at + byteCount] := map_[at + byteCount] | Shr(val, shift);
      if count > space && byteCount < cols - 1 {
        map_[at + byteCount + 1] := map_[at + byteCount + 1] | Shl(val, space);
      }
    }
    if count <= space {
      NothingOver(val, count, space);
      if byteCount + 1 < cols { assert was[at + byteCount + 1] | 0 == was[at + byteCount + 1]; }
    }
    forall x | 0 <= x < 8 * cols
      ensures Pixel(map_[..], at, x) <==>
              Pixel(was, at, x) || (0 <= x - (8 * byteCount + shift) < 8 && Bit(val, x - (8 * byteCount + shift)))
    {
      PutAt(was, map_[..], at, cols, byteCount, shift, val, x);
    }
  }

  lemma NothingOver(val: bv8, count: nat, space: nat)
    requires count <= space <= 8 && forall i | count <= i < 8 :: !Bit(val, i)
    ensures Shl(val, space) == 0
  {
    forall i | 0 <= i < 8
      ensures !Bit(Shl(val, space), i)
    {
      ShlBit(val, space, i);
    }
    NoBits(Shl(val, space));
  }

  lemma NoBits(b: bv8)
    requires forall i | 0 <= i < 8 :: !Bit(b, i)
    ensures b == 0
  {
    assert !Bit(b, 0) && !Bit(b, 1) && !Bit(b, 2) && !Bit(b, 3) && !Bit(b, 4) && !Bit(b, 5) && !Bit(b, 6) && !Bit(b, 7);
  }

  lemma ReaderStart(source: seq<bv8>, row: nat, pos: nat)
    requires pos % 8 == 0 && row + pos / 8 <= |source|
    ensures Reader(source, row, CLEAR, 0, row + pos / 8, pos)
  {
    forall i | 0 <= i < 16
      ensures !AccBit(CLEAR, i)
    {
      ClearBit(i);
    }
  }

  lemma ReaderBound(source: seq<bv8>, row: nat, acc: Acc, loaded: nat, src: nat, pos: nat)
    requires Reader(source, row, acc, loaded, src, pos)
    ensures loaded < 16 && 8 * src == 8 * row + pos + loaded && src <= |source|
  {
  }

  // Nothing of the row can be in the map before its first column.
  lemma RowStart(was: seq<bv8>, at: nat, cols: nat, source: seq<bv8>, row: nat, pos: nat, xOffset: int)
    requires at + cols <= |was| && row + (pos + 7) / 8 <= |source| && pos + xOffset >= 0
    requires pos == 0 || pos + xOffset == 0
    ensures RowTo(was, was, at, cols, source, row, pos, xOffset)
  {
    hide Pixel;
  }

  lemma TopClear(v: bv8, count: nat)
    requires count <= 8
    ensures forall i | count <= i < 8 :: !Bit(Top(v, count), i)
  {
    forall i | count <= i < 8
      ensures !Bit(Top(v, count), i)
    {
      TopBit(v, count, i);
    }
  }

  /** One line: the source row, shifted by xOffset, is ORed into the map's row, clipped on both sides. */
  method BlitLine(map_: array<bv8>, at: nat, cols: nat, source: seq<bv8>, row: nat, lineBits: nat, xOffset: int)
    requires at + cols <= map_.Length && row + (lineBits + 7) / 8 <= |source| && xOffset + lineBits >= 0
    modifies map_
    ensures RowTo(old(map_[..]), map_[..], at, cols, source, row, lineBits, xOffset)
  {
    hide Bit, AccBit, Pixel, Top, Drop, RowTo, Painted, NextBits, Reader;
    ghost var was := map_[..];
    var byteCount: int, shift: nat, count := xOffset / 8, xOffset % 8, lineBits;
    var acc, loaded: nat, src: nat, space := CLEAR, 0, row, 8 - shift;
    ghost var pos: nat := 0;
    ReaderStart(source, row, 0);
    if byteCount < 0 {
      var skip := -byteCount - 1;
      src := src + skip;
      ReaderStart(source, row, 8 * skip);
      acc, src := Fill(source, row, acc, loaded, src, 8 * skip);
      Taken(source, row, acc, 8, src, 8 * skip, space);
      acc, loaded := Drop(acc, space), 8 - space;
      pos := -xOffset;
      count := count + xOffset;
      byteCount, shift, space := 0, 0, 8;
    }
    RowStart(was, at, cols, source, row, pos, xOffset);
    while count >= 8
      invariant 0 <= count && pos + count == lineBits && byteCount >= 0 && 8 * byteCount + shift == pos + xOffset
      invariant Reader(source, row, acc, loaded, src, pos)
      invariant RowTo(was, map_[..], at, cols, source, row, pos, xOffset)
    {
      ReaderBound(source, row, acc, loaded, src, pos);
      if loaded < 8 {
        acc, src := Fill(source, row, acc, loaded, src, pos);
        loaded := loaded + 8;
      }
      NextByte(source, row, acc, loaded, src, pos, 8);
      ghost var mid := map_[..];
      PutByte(map_, at, cols, byteCount, shift, High(acc));
      RowFurther(was, mid, map_[..], at, cols, source, row, pos, 8, xOffset, High(acc));
      Taken(source, row, acc, loaded, src, pos, 8);
      byteCount := byteCount + 1;
      acc, loaded, count := Drop(acc, 8), loaded - 8, count - 8;
      pos := pos + 8;
    }
    if count > 0 {
      ReaderBound(source, row, acc, loaded, src, pos);
      if loaded < count {
        acc, src := Fill(source, row, acc, loaded, src, pos);
        loaded := loaded + 8;
      }
      NextByte(source, row, acc, loaded, src, pos, count);
      ghost var mid := map_[..];
      var val := Top(High(acc), count);
      TopClear(High(acc), count);
      PutRest(map_, at, cols, byteCount, shift, val, count);
      RowFurther(was, mid, map_[..], at, cols, source, row, pos, count, xOffset, val);
    }
  }

  // ----- the whole map

  datatype Raster = Raster(rows: nat, cols: nat)

  // The source: `rows` rows of `bits` bits, each padded to `align` bytes.
  datatype Image = Image(bytes: seq<bv8>, rows: nat, bits: nat, align: nat) {
    predicate Valid() { (bits + 7) / 8 <= align && rows * align <= |bytes| }
  }

  // The image has a set bit at (x, y).
  predicate ImageBit(im: Image, x: int, y: int)
    requires im.Valid()
  {
    0 <= y < im.rows && (RowIn(im, y); SourceBit(im.bytes, y * im.align, im.bits, x))
  }

  lemma RowIn(im: Image, y: nat)
    requires im.Valid() && y < im.rows
    ensures y * im.align + (im.bits + 7) / 8 <= |im.bytes|
  {
    assert (y + 1) * im.align <= im.rows * im.align;
  }

  lemma RowAt(r: Raster, y: nat)
    requires y < r.rows
    ensures y * r.cols + r.cols <= r.rows * r.cols
  {
    assert (y + 1) * r.cols <= r.rows * r.cols;
  }

  // Row y of the map has been ORed with the image row that belongs there.
  ghost predicate RowDone(r: Raster, im: Image, was: seq<bv8>, now: seq<bv8>, y: nat, xOffset: int, yOffset: int)
    requires im.Valid() && |was| == |now| == r.rows * r.cols && y < r.rows
  {
    RowAt(r, y);
    forall x | 0 <= x < 8 * r.cols ::
      Pixel(now, y * r.cols, x) <==> Pixel(was, y * r.cols, x) || ImageBit(im, x - xOffset, y - yOffset)
  }

  ghost predicate RowSame(r: Raster, was: seq<bv8>, now: seq<bv8>, y: nat)
    requires |was| == |now| == r.rows * r.cols && y < r.rows
  {
    RowAt(r, y);
    forall i | y * r.cols <= i < y * r.cols + r.cols :: now[i] == was[i]
  }

  // One line of the map after BlitLine has done it.
  lemma LineDone(r: Raster, im: Image, was: seq<bv8>, mid: seq<bv8>, now: seq<bv8>, z: nat, xOffset: int, yOffset: int)
    requires im.Valid() && |was| == |mid| == |now| == r.rows * r.cols && z < r.rows && 0 <= z - yOffset < im.rows
    requires RowSame(r, was, mid, z)
    requires (RowAt(r, z); RowIn(im, z - yOffset);
              RowTo(mid, now, z * r.cols, r.cols, im.bytes, (z - yOffset) * im.align, im.bits, xOffset))
    ensures RowDone(r, im, was, now, z, xOffset, yOffset)
  {
    hide Bit;
    RowAt(r, z);
    forall x | 0 <= x < 8 * r.cols
      ensures Pixel(now, z * r.cols, x) <==> Pixel(was, z * r.cols, x) || ImageBit(im, x - xOffset, z - yOffset)
    {
      assert mid[z * r.cols + x / 8] == was[z * r.cols + x / 8];
    }
  }

  // A change outside a line does not show on it.
  lemma StillLine(r: Raster, im: Image, was: seq<bv8>, mid: seq<bv8>, now: seq<bv8>, xOffset: int, yOffset: int, y: nat)
    requires im.Valid() && |was| == |mid| == |now| == r.rows * r.cols && y < r.rows && RowSame(r, mid, now, y)
    ensures RowSame(r, was, mid, y) ==> RowSame(r, was, now, y)
    ensures RowDone(r, im, was, mid, y, xOffset, yOffset) ==> RowDone(r, im, was, now, y, xOffset, yOffset)
  {
    hide Bit, ImageBit;
    RowAt(r, y);
    forall x | 0 <= x < 8 * r.cols
      ensures Pixel(now, y * r.cols, x) == Pixel(mid, y * r.cols, x)
    {
      assert now[y * r.cols + x / 8] == mid[y * r.cols + x / 8];
    }
  }

  lemma RestSame(was: seq<bv8>, now: seq<bv8>, at: nat, cols: nat, source: seq<bv8>, row: nat, pos: int, xOffset: int, from: nat)
    requires |was| == |now| && at + cols <= |was| && row + (pos + 7) / 8 <= |source|
    requires RowTo(was, now, at, cols, source, row, pos, xOffset)
    requires from + cols <= |was| && (from + cols <= at || at + cols <= from)
    ensures forall i | from <= i < from + cols :: now[i] == was[i]
  {
  }

  lemma RowsApart(cols: nat, y: nat, z: nat)
    requires y != z
    ensures y * cols + cols <= z * cols || z * cols + cols <= y * cols
  {
    if y < z { assert (y + 1) * cols <= z * cols; } else { assert (z + 1) * cols <= y * cols; }
  }

  // The other lines are as they were.
  lemma LineElsewhere(r: Raster, im: Image, mid: seq<bv8>, now: seq<bv8>, z: nat, row: nat, xOffset: int, y: nat)
    requires im.Valid() && |mid| == |now| == r.rows * r.cols && z < r.rows && y < r.rows && y != z
    requires row + (im.bits + 7) / 8 <= |im.bytes|
    requires (RowAt(r, z); RowTo(mid, now, z * r.cols, r.cols, im.bytes, row, im.bits, xOffset))
    ensures RowSame(r, mid, now, y)
  {
    hide RowTo;
    RowAt(r, y);
    RowAt(r, z);
    RowsApart(r.cols, y, z);
    RestSame(mid, now, z * r.cols, r.cols, im.bytes, row, im.bits, xOffset, y * r.cols);
  }

  // A line on which nothing of the image lies.
  lemma LineClear(r: Raster, im: Image, was: seq<bv8>, now: seq<bv8>, y: nat, xOffset: int, yOffset: int)
    requires im.Valid() && |was| == |now| == r.rows * r.cols && y < r.rows && RowSame(r, was, now, y)
    requires !(0 <= y - yOffset < im.rows)
    ensures RowDone(r, im, was, now, y, xOffset, yOffset)
  {
    hide Bit;
    RowAt(r, y);
    forall x | 0 <= x < 8 * r.cols
      ensures Pixel(now, y * r.cols, x) == Pixel(was, y * r.cols, x)
    {
      assert now[y * r.cols + x / 8] == was[y * r.cols + x / 8];
    }
  }

  // The lines from `top` up to `end` are done, the others as they were.
  ghost predicate LinesDone(r: Raster, im: Image, was: seq<bv8>, now: seq<bv8>, top: nat, end: nat, xOffset: int, yOffset: int)
    requires im.Valid() && |was| == |now| == r.rows * r.cols
  {
    && (forall y | 0 <= y < r.rows && top <= y < end :: RowDone(r, im, was, now, y, xOffset, yOffset))
    && (forall y | 0 <= y < r.rows && !(top <= y < end) :: RowSame(r, was, now, y))
  }

  lemma NextLine(r: Raster, im: Image, was: seq<bv8>, mid: seq<bv8>, now: seq<bv8>, top: nat, z: nat, xOffset: int, yOffset: int)
    requires im.Valid() && |was| == |mid| == |now| == r.rows * r.cols && top <= z < r.rows && 0 <= z - yOffset < im.rows
    requires LinesDone(r, im, was, mid, top, z, xOffset, yOffset)
    requires (RowAt(r, z); RowIn(im, z - yOffset);
              RowTo(mid, now, z * r.cols, r.cols, im.bytes, (z - yOffset) * im.align, im.bits, xOffset))
    ensures LinesDone(r, im, was, now, top, z + 1, xOffset, yOffset)
  {
    hide RowTo, RowDone, RowSame;
    RowAt(r, z);
    RowIn(im, z - yOffset);
    LineDone(r, im, was, mid, now, z, xOffset, yOffset);
    forall y | 0 <= y < r.rows && y != z
      ensures RowSame(r, was, mid, y) ==> RowSame(r, was, now, y)
      ensures RowDone(r, im, was, mid, y, xOffset, yOffset) ==> RowDone(r, im, was, now, y, xOffset, yOffset)
    {
      LineElsewhere(r, im, mid, now, z, (z - yOffset) * im.align, xOffset, y);
      StillLine(r, im, was, mid, now, xOffset, yOffset, y);
    }
  }

  lemma NoLine(r: Raster, im: Image, was: seq<bv8>, top: nat, xOffset: int, yOffset: int)
    requires im.Valid() && |was| == r.rows * r.cols
    ensures LinesDone(r, im, was, was, top, top, xOffset, yOffset)
  {
  }

  lemma AllLines(r: Raster, im: Image, was: seq<bv8>, now: seq<bv8>, top: nat, end: nat, xOffset: int, yOffset: int)
    requires im.Valid() && |was| == |now| == r.rows * r.cols && LinesDone(r, im, was, now, top, end, xOffset, yOffset)
    requires top == (if yOffset > 0 then yOffset else 0) && (end >= r.rows || end - yOffset >= im.rows)
    ensures forall y | 0 <= y < r.rows :: RowDone(r, im, was, now, y, xOffset, yOffset)
  {
    hide RowDone, RowSame;
    forall y | 0 <= y < r.rows
      ensures RowDone(r, im, was, now, y, xOffset, yOffset)
    {
      if !(top <= y < end) { LineClear(r, im, was, now, y, xOffset, yOffset); }
    }
  }

  // The line of the map that round y writes.
  function LineOf(yOffset: int, y: nat): int { (if yOffset > 0 then yOffset else 0) + y }

  // The lines that the loop's own test lets through are in the map.
  predicate StaysIn(rows: nat, height: nat, yOffset: int) {
    forall y | 0 <= y < height && yOffset + y < rows :: LineOf(yOffset, y) < rows
  }

  /** They are exactly when the image does not start above the map, or what is left of the image is no higher. */
  lemma StaysInside(rows: nat, height: nat, yOffset: int)
    ensures StaysIn(rows, height, yOffset) <==> yOffset >= 0 || height <= rows
  {
    if yOffset < 0 && height > rows {
      assert LineOf(yOffset, rows) >= rows;
    }
  }

  // One round of the loop, for line z of the map.
  method BlitRow(map_: array<bv8>, r: Raster, im: Image, ghost was: seq<bv8>, ghost top: nat, ghost z: nat,
                 lineBuff: nat, source: nat, xOffset: int, yOffset: int)
    requires im.Valid() && |was| == map_.Length == r.rows * r.cols && xOffset + im.bits >= 0
    requires top <= z < r.rows && 0 <= z - yOffset < im.rows
    requires lineBuff == z * r.cols && source == (z - yOffset) * im.align
    requires LinesDone(r, im, was, map_[..], top, z, xOffset, yOffset)
    modifies map_
    ensures LinesDone(r, im, was, map_[..], top, z + 1, xOffset, yOffset)
  {
    hide LinesDone, RowTo, RowDone, Pixel;
    RowAt(r, z);
    RowIn(im, z - yOffset);
    ghost var mid := map_[..];
    BlitLine(map_, lineBuff, r.cols, im.bytes, source, im.bits, xOffset);
    NextLine(r, im, was, mid, map_[..], top, z, xOffset, yOffset);
  }

  /** blit_stream: every bit of the map becomes itself OR the bit of the image that lies on it, unless the loop goes on to
      a line behind the map; the model ends there. `height` is the number of image rows from the first that is not above
      the map. */
  method BlitStream(map_: array<bv8>, r: Raster, im: Image, height: nat, xOffset: int, yOffset: int) returns (stays: bool)
    requires im.Valid() && map_.Length == r.rows * r.cols
    requires height == if yOffset >= 0 then im.rows else im.rows + yOffset
    requires xOffset + im.bits >= 0
    modifies map_
    ensures stays <==> StaysIn(r.rows, height, yOffset)
    ensures stays ==> forall y | 0 <= y < r.rows :: RowDone(r, im, old(map_[..]), map_[..], y, xOffset, yOffset)
  {
    hide LinesDone, RowTo, RowDone, Pixel;
    ghost var was := map_[..];
    var lineBuff: nat, source: nat := 0, 0;
    if yOffset > 0 { lineBuff := lineBuff + yOffset * r.cols; }
    if yOffset < 0 { source := source + im.align * (-yOffset); }
    ghost var top: nat := if yOffset > 0 then yOffset else 0;
    NoLine(r, im, was, top, xOffset, yOffset);
    Products(im.align, top - yOffset);
    var y := 0;
    while y < height
      invariant 0 <= y <= height && (y > 0 ==> top + y <= r.rows)
      invariant lineBuff == (top + y) * r.cols && source == (top + y - yOffset) * im.align
      invariant LinesDone(r, im, was, map_[..], top, top + y, xOffset, yOffset)
    {
      if yOffset + y >= r.rows { break; }
      if LineOf(yOffset, y) >= r.rows { return false; }
      BlitRow(map_, r, im, was, top, top + y, lineBuff, source, xOffset, yOffset);
      Products(r.cols, top + y);
      Products(im.align, top + y - yOffset);
      lineBuff := lineBuff + r.cols;
      source := source + im.align;
      y := y + 1;
    }
    StaysInside(r.rows, height, yOffset);
    AllLines(r, im, was, map_[..], top, top + y, xOffset, yOffset);
    stays := true;
  }

  lemma Products(a: int, n: int)
    ensures (n + 1) * a == n * a + a && a * n == n * a
  {
  }

  // Where XTT_Get_SBit_Bitmap puts a glyph whose box, in 64ths, has its left edge at xMin and its upper edge at yMax.

  function XOffset(x: int, xMin: int, depth: nat): int { (x + xMin / 64) * depth }

  function YOffset(rows: nat, y: int, yMax: int): int { rows - (y + (yMax + 63) / 64) }

  predicate Misses(r: Raster, width: nat, im: Image, xOffset: int, yOffset: int) {
    xOffset + im.bits < 0 || xOffset >= width || yOffset >= r.rows || yOffset + im.rows < 0
  }

  // What becomes of a glyph: rejected, drawn, or written on behind the map.
  /** The left edge is rounded down to a whole column, and the upper edge up to a whole row, negative edges too; columns
      are counted in bits from the left, rows from the top of the map. */
  lemma Edges(rows: nat, x: int, y: int, xMin: int, yMax: int, depth: nat, q: int)
    requires depth > 0
    ensures 64 * q <= xMin < 64 * (q + 1) <==> XOffset(x, xMin, depth) == (x + q) * depth
    ensures 64 * (q - 1) < yMax <= 64 * q <==> YOffset(rows, y, yMax) == rows - (y + q)
  {
    Factor(x + xMin / 64, x + q, depth);
  }

  lemma Factor(a: int, b: int, d: nat)
    requires d > 0
    ensures a * d == b * d <==> a == b
  {
    if a < b { Above(a, b, d); } else if b < a { Above(b, a, d); }
  }

  lemma {:induction false} Above(a: int, b: int, d: nat)
    requires a < b && d > 0
    ensures a * d < b * d
    decreases d
  {
    Products(a, d - 1);
    Products(b, d - 1);
    if d > 1 { Above(a, b, d - 1); }
  }

  /** An image is turned away exactly when no point of its box, right and lower edge included, is in the map. */
  lemma MissesBox(r: Raster, width: nat, im: Image, xOffset: int, yOffset: int)
    requires width > 0 && r.rows > 0
    ensures Misses(r, width, im, xOffset, yOffset) <==>
            forall u, v | InBox(im, u, v) :: !(0 <= u + xOffset < width && 0 <= v + yOffset < r.rows)
  {
    if !Misses(r, width, im, xOffset, yOffset) {
      var x, y := if xOffset < 0 then 0 else xOffset, if yOffset < 0 then 0 else yOffset;
      assert InBox(im, x - xOffset, y - yOffset);
    }
  }

  predicate InBox(im: Image, x: int, y: int) { 0 <= x <= im.bits && 0 <= y <= im.rows }

  // So nothing of it would have shown.
  lemma NothingShows(r: Raster, width: nat, im: Image, xOffset: int, yOffset: int)
    requires im.Valid() && (Misses(r, width, im, xOffset, yOffset) || im.align == 0 || im.rows == 0)
    ensures forall u, v | ImageBit(im, u, v) :: !(0 <= u + xOffset < width && 0 <= v + yOffset < r.rows)
  {
    hide ImageBit;
    forall u, v | ImageBit(im, u, v)
      ensures !(0 <= u + xOffset < width && 0 <= v + yOffset < r.rows)
    {
      InImage(im, u, v);
    }
  }

  lemma InImage(im: Image, x: int, y: int)
    requires im.Valid() && ImageBit(im, x, y)
    ensures 0 <= x < im.bits && 0 <= y < im.rows && im.align > 0
  {
  }

  datatype Blit = Rejected | Drawn | Outside

  /** XTT_Get_SBit_Bitmap for a map and an image that both flow down. */
  method GetSBitBitmap(map_: array<bv8>, r: Raster, width: nat, im: Image, depth: nat, xMin: int, yMax: int, x: int, y: int)
    returns (b: Blit)
    requires im.Valid() && map_.Length == r.rows * r.cols
    modifies map_
    ensures b.Rejected? <==>
              Misses(r, width, im, XOffset(x, xMin, depth), YOffset(r.rows, y, yMax)) || im.align == 0 || im.rows == 0
    ensures b.Rejected? ==> map_[..] == old(map_[..]) && forall u, v | ImageBit(im, u, v) ::
              !(0 <= u + XOffset(x, xMin, depth) < width && 0 <= v + YOffset(r.rows, y, yMax) < r.rows)
    ensures var yOffset := YOffset(r.rows, y, yMax); b.Outside? <==> !b.Rejected? && yOffset < 0 && im.rows + yOffset > r.rows
    ensures b.Drawn? ==> forall z | 0 <= z < r.rows ::
              RowDone(r, im, old(map_[..]), map_[..], z, XOffset(x, xMin, depth), YOffset(r.rows, y, yMax))
  {
    hide RowDone, StaysIn;
    var xOffset := x + xMin / 64;
    xOffset := xOffset * depth;
    var yOffset := r.rows - (y + (yMax + 63) / 64);
    if Misses(r, width, im, xOffset, yOffset) || im.align == 0 || im.rows == 0 { NothingShows(r, width, im, xOffset, yOffset); }
    if xOffset + im.bits < 0 || xOffset >= width || yOffset >= r.rows || yOffset + im.rows < 0 { return Rejected; }
    if im.align <= 0 || im.rows <= 0 { return Rejected; }
    var height := if yOffset >= 0 then im.rows else im.rows + yOffset;
    StaysInside(r.rows, height, yOffset);
    var stays := BlitStream(map_, r, im, height, xOffset, yOffset);
    b := if stays then Drawn else Outside;
  }
}
