/** Tile descriptors and the atlas lookup (`Drawer::setTile`'s record and
    `pickTileIndex` in src/Drawer.cpp). */
module Atlas {
  import opened CppArith
  import opened Geometry

  /** A shared texture: an opaque handle and the width of its bounds in pixels. */
  datatype Image = Image(handle: nat, width: int)

  /** The frame timeline of a tile: none, or a loop started at `start` that
      sweeps the frame range once every `duration`. */
  datatype FrameAnim = Static | Looping(start: real, duration: real)

  /** A registered tile: its atlas image, its pixel height, its atlas row, its
      frame range [begin, end) and its current frame. */
  datatype Tile = Tile(image: Image, height: int, line: int, begin: int, end: int,
                       current: int, anim: FrameAnim)

  /** The descriptor `setTile` stores: the current frame starts at `begin`, and
      a looping timeline is started only when the range has two frames or more. */
  function NewTile(image: Image, height: int, line: int, begin: int, end: int,
                   duration: real, now: real): (t: Tile)
    ensures t.image == image && t.height == height && t.line == line
    ensures t.begin == begin && t.end == end && t.current == begin
    ensures t.anim.Looping? <==> end > begin + 1
    ensures t.anim.Looping? ==> t.anim.start == now && t.anim.duration == duration
  {
    Tile(image, height, line, begin, end, begin,
         if end > begin + 1 then Looping(now, duration) else Static)
  }

  /** `pickTileIndex`: the source rectangle of frame `tileIndex` on atlas row
      `tileLine`. Frames wrap around the atlas width; the rectangle is one
      tile wide and `tileHeight` pixels tall, with its bottom on the row's
      bottom edge. */
  function PickTileIndex(imageWidth: int, tileWidth: int, tileHeight: int,
                         tileLine: int, tileIndex: int): (a: Area)
    requires 0 < tileWidth <= imageWidth
    ensures a.Width() == tileWidth && a.Height() == tileHeight
    ensures a.y2 == (tileLine + 1) * tileWidth
    ensures a.x1 % tileWidth == 0
    ensures tileIndex >= 0 ==> 0 <= a.x1 && a.x2 <= imageWidth
  {
    var count := imageWidth / tileWidth;
    var column := CppRem(tileIndex, count);
    ColumnFits(imageWidth, tileWidth, column);
    Area(column * tileWidth, (tileLine + 1) * tileWidth - tileHeight,
         (column + 1) * tileWidth, (tileLine + 1) * tileWidth)
  }

  lemma ColumnFits(imageWidth: int, tileWidth: int, column: int)
    requires 0 < tileWidth <= imageWidth
    requires Abs(column) < imageWidth / tileWidth
    ensures (column * tileWidth) % tileWidth == 0
    ensures column >= 0 ==> 0 <= column * tileWidth && (column + 1) * tileWidth <= imageWidth
  {
    var count := imageWidth / tileWidth;
    assert count * tileWidth <= imageWidth;
    ModUnique(column * tileWidth, tileWidth, column, 0);
    if column >= 0 {
      MulMono(column + 1, count, tileWidth);
    }
  }

  /** For a non-negative frame, the column is the frame modulo the number of
      frames that fit across the atlas. */
  lemma PickTileColumn(imageWidth: int, tileWidth: int, tileHeight: int,
                       tileLine: int, tileIndex: int)
    requires 0 < tileWidth <= imageWidth && tileIndex >= 0
    ensures PickTileIndex(imageWidth, tileWidth, tileHeight, tileLine, tileIndex).x1
            == (tileIndex % (imageWidth / tileWidth)) * tileWidth
  {
  }

  /** Frames one atlas width apart share a rectangle. */
  lemma {:induction false} PickTileWraps(imageWidth: int, tileWidth: int, tileHeight: int,
                                         tileLine: int, tileIndex: int)
    requires 0 < tileWidth <= imageWidth && tileIndex >= 0
    ensures PickTileIndex(imageWidth, tileWidth, tileHeight, tileLine,
                          tileIndex + imageWidth / tileWidth)
            == PickTileIndex(imageWidth, tileWidth, tileHeight, tileLine, tileIndex)
  {
    var count := imageWidth / tileWidth;
    ModUnique(imageWidth, tileWidth, count, imageWidth % tileWidth);
    assert count > 0;
    var q := tileIndex / count;
    assert tileIndex == q * count + tileIndex % count;
    assert tileIndex + count == (q + 1) * count + tileIndex % count;
    ModUnique(tileIndex + count, count, q + 1, tileIndex % count);
  }

  /** The source rectangle of a tile's current frame. */
  function SourceRect(t: Tile, tileSize: int): (a: Area)
    requires 0 < tileSize <= t.image.width
    ensures a.Width() == tileSize && a.Height() == t.height
  {
    PickTileIndex(t.image.width, tileSize, t.height, t.line, t.current)
  }
}
