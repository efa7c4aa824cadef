/** The draw order of `Drawer::draw` and `Drawer::drawTile` (src/Drawer.cpp),
    as the sequence of draw calls one frame issues. The board rows at or
    above the actor's row come first, then the actor, then the rows below:
    the order alone stands in for a depth buffer. */
module Compositor {
  import opened CppArith
  import opened Geometry
  import opened Atlas

  /** A board cell: its ground tile and its overlay tile (0 when none). */
  datatype Cell = Cell(ground: int, layer: int)

  /** The board as the drawer reads it: its size and its rows of cells. */
  datatype Board = Board(width: int, rows: seq<seq<Cell>>)
  {
    function Height(): int { |rows| }
    function Size(): Vec2 { Vec2(width, |rows|) }
  }

  /** The actor as the drawer reads it: the cell it is on, the cell it came
      from, its animated position and its tile. */
  datatype Actor = Actor(logical: Vec2, last: Vec2, animatedX: real, animatedY: real, tileId: int)

  /** Where a draw call puts its tile: a board cell, or the actor's position. */
  datatype Place = CellAt(x: int, y: int) | ActorAt(ax: real, ay: real)

  /** One `ci::gl::draw` call: the tile drawn, where, and from which atlas rectangle. */
  datatype DrawEvent = DrawEvent(tileId: int, place: Place, src: Area)

  /** Every registered tile can be looked up in its atlas at this tile size. */
  predicate Drawable(tiles: map<int, Tile>, tileSize: int) {
    tileSize > 0 && forall id :: id in tiles ==> tileSize <= tiles[id].image.width
  }

  /** `drawTile`: one draw of the tile's current frame, or nothing at all for
      an id that was never registered. */
  function TileDraw(tiles: map<int, Tile>, tileSize: int, id: int, place: Place): (e: seq<DrawEvent>)
    requires Drawable(tiles, tileSize)
    ensures |e| == (if id in tiles then 1 else 0)
  {
    if id in tiles then [DrawEvent(id, place, SourceRect(tiles[id], tileSize))] else []
  }

  /** One cell: the ground tile, then the overlay tile when there is one. */
  function CellDraws(tiles: map<int, Tile>, tileSize: int, c: Cell, x: int, y: int): (e: seq<DrawEvent>)
    requires Drawable(tiles, tileSize)
    ensures |e| <= 2
  {
    TileDraw(tiles, tileSize, c.ground, CellAt(x, y))
    + (if c.layer != 0 then TileDraw(tiles, tileSize, c.layer, CellAt(x, y)) else [])
  }

  /** Every draw call is at place p. */
  predicate AllAt(e: seq<DrawEvent>, p: Place) {
    forall i :: 0 <= i < |e| ==> e[i].place == p
  }

  /** A cell's draw calls are at that cell: the ground tile first, then the
      overlay only when the cell has one and it is registered. */
  lemma CellDrawsAtCell(tiles: map<int, Tile>, tileSize: int, c: Cell, x: int, y: int)
    requires Drawable(tiles, tileSize)
    ensures AllAt(CellDraws(tiles, tileSize, c, x, y), CellAt(x, y))
    ensures |CellDraws(tiles, tileSize, c, x, y)|
            == (if c.ground in tiles then 1 else 0) + (if c.layer != 0 && c.layer in tiles then 1 else 0)
    ensures c.ground in tiles ==> CellDraws(tiles, tileSize, c, x, y)[0].tileId == c.ground
    ensures c.layer != 0 && c.layer in tiles ==>
              CellDraws(tiles, tileSize, c, x, y)[|CellDraws(tiles, tileSize, c, x, y)| - 1].tileId == c.layer
  {
  }

  /** Every draw call is at one of the first n cells of row y. */
  predicate AllInRow(e: seq<DrawEvent>, y: int, n: int) {
    forall i :: 0 <= i < |e| ==> e[i].place.CellAt? && e[i].place.y == y && 0 <= e[i].place.x < n
  }

  /** Every draw call is at a cell of rows lo .. hi - 1. */
  predicate AllInRows(e: seq<DrawEvent>, rows: seq<seq<Cell>>, lo: int, hi: int) {
    forall i :: 0 <= i < |e| ==>
      && e[i].place.CellAt? && lo <= e[i].place.y < hi && 0 <= e[i].place.y < |rows|
      && 0 <= e[i].place.x < |rows[e[i].place.y]|
  }

  /** The cells drawn come in ascending x. */
  predicate LeftToRight(e: seq<DrawEvent>) {
    forall i, j :: 0 <= i < j < |e| && e[i].place.CellAt? && e[j].place.CellAt? ==>
      e[i].place.x <= e[j].place.x
  }


  /** The draw calls of a sequence of parts, one part after the other. */
  function Flatten(ss: seq<seq<DrawEvent>>): (e: seq<DrawEvent>)
    ensures ss == [] ==> e == []
    decreases |ss|
  {
    if ss == [] then [] else Flatten(ss[..|ss| - 1]) + ss[|ss| - 1]
  }

  /** Flattening the first n + 1 parts appends part n to the first n. */
  lemma FlattenPrefix(ss: seq<seq<DrawEvent>>, n: nat)
    requires n < |ss|
    ensures Flatten(ss[..n + 1]) == Flatten(ss[..n]) + ss[n]
  {
    assert ss[..n + 1][..n] == ss[..n];
  }

  /** The cells of row y, one part per cell, left to right. */
  function CellsOfRow(tiles: map<int, Tile>, tileSize: int, row: seq<Cell>, y: int): (ss: seq<seq<DrawEvent>>)
    requires Drawable(tiles, tileSize)
    ensures |ss| == |row|
  {
    seq(|row|, x requires 0 <= x < |row| => CellDraws(tiles, tileSize, row[x], x, y))
  }

  /** Row y, cell by cell from the left. */
  function RowDraws(tiles: map<int, Tile>, tileSize: int, row: seq<Cell>, y: int): (e: seq<DrawEvent>)
    requires Drawable(tiles, tileSize)
    ensures row == [] ==> e == []
  {
    var ss := CellsOfRow(tiles, tileSize, row, y);
    assert row == [] ==> ss == [];
    Flatten(ss)
  }

  /** Rows lo .. hi - 1, one part per row, top to bottom. */
  function RowsOf(tiles: map<int, Tile>, tileSize: int, rows: seq<seq<Cell>>, lo: nat, hi: nat)
    : (ss: seq<seq<DrawEvent>>)
    requires Drawable(tiles, tileSize) && lo <= hi <= |rows|
    ensures |ss| == hi - lo
  {
    seq(hi - lo, j requires 0 <= j < hi - lo => RowDraws(tiles, tileSize, rows[lo + j], lo + j))
  }

  /** Rows lo .. hi - 1, top to bottom. */
  function RowsDraws(tiles: map<int, Tile>, tileSize: int, rows: seq<seq<Cell>>, lo: nat, hi: nat)
    : (e: seq<DrawEvent>)
    requires Drawable(tiles, tileSize) && lo <= hi <= |rows|
    ensures lo == hi ==> e == []
  {
    var ss := RowsOf(tiles, tileSize, rows, lo, hi);
    assert lo == hi ==> ss == [];
    Flatten(ss)
  }

  /** Drawing one more row appends that row. */
  lemma RowsDrawsPush(tiles: map<int, Tile>, tileSize: int, rows: seq<seq<Cell>>, lo: nat, hi: nat)
    requires Drawable(tiles, tileSize) && lo <= hi < |rows|
    ensures RowsDraws(tiles, tileSize, rows, lo, hi + 1)
            == RowsDraws(tiles, tileSize, rows, lo, hi) + RowDraws(tiles, tileSize, rows[hi], hi)
  {
    var ss := RowsOf(tiles, tileSize, rows, lo, hi + 1);
    var s0 := RowsOf(tiles, tileSize, rows, lo, hi);
    var n := hi - lo;
    assert ss[n] == RowDraws(tiles, tileSize, rows[lo + n], lo + n);
    assert lo + n == hi;
    assert ss[..n] == s0;
    assert ss[..n + 1] == ss;
    FlattenPrefix(ss, n);
    assert Flatten(ss) == Flatten(s0) + ss[n];
    assert RowsDraws(tiles, tileSize, rows, lo, hi + 1) == Flatten(ss);
    assert RowsDraws(tiles, tileSize, rows, lo, hi) == Flatten(s0);
  }

  /** Parts that each draw only cell x of row y, for x = 0, 1, ..., make a
      row drawn left to right. */
  lemma {:induction false} FlattenRow(ss: seq<seq<DrawEvent>>, y: int)
    requires forall x :: 0 <= x < |ss| ==> AllAt(ss[x], CellAt(x, y))
    ensures AllInRow(Flatten(ss), y, |ss|) && LeftToRight(Flatten(ss))
    decreases |ss|
  {
    if ss != [] {
      var m := |ss| - 1;
      var r := Flatten(ss[..m]);
      var c := ss[m];
      FlattenRow(ss[..m], y);
      assert AllAt(c, CellAt(m, y));
      var e := r + c;
      assert Flatten(ss) == e;
      forall i | 0 <= i < |e|
        ensures e[i].place.CellAt? && e[i].place.y == y && 0 <= e[i].place.x < |ss|
      {
        if i < |r| { assert e[i] == r[i]; } else { assert e[i] == c[i - |r|]; }
      }
      forall i, j | 0 <= i < j < |e| && e[i].place.CellAt? && e[j].place.CellAt?
        ensures e[i].place.x <= e[j].place.x
      {
        if j < |r| {
          assert e[i] == r[i] && e[j] == r[j];
        } else if i >= |r| {
          assert e[i] == c[i - |r|] && e[j] == c[j - |r|];
        } else {
          assert e[i] == r[i] && e[j] == c[j - |r|];
        }
      }
    }
  }

  /** A row's draw calls are all at cells of that row, left to right. */
  lemma RowDrawsInOrder(tiles: map<int, Tile>, tileSize: int, row: seq<Cell>, y: int)
    requires Drawable(tiles, tileSize)
    ensures AllInRow(RowDraws(tiles, tileSize, row, y), y, |row|)
    ensures LeftToRight(RowDraws(tiles, tileSize, row, y))
  {
    var ss := CellsOfRow(tiles, tileSize, row, y);
    forall x | 0 <= x < |ss|
      ensures AllAt(ss[x], CellAt(x, y))
    {
      CellDrawsAtCell(tiles, tileSize, row[x], x, y);
    }
    FlattenRow(ss, y);
  }

  /** Cell p comes no later than cell q in row-major order. */
  predicate Before(p: Place, q: Place) {
    p.CellAt? && q.CellAt? && (p.y < q.y || (p.y == q.y && p.x <= q.x))
  }

  /** The cells drawn come in row-major order. */
  predicate RowMajor(e: seq<DrawEvent>) {
    forall i, j :: 0 <= i < j < |e| && e[i].place.CellAt? && e[j].place.CellAt? ==>
      Before(e[i].place, e[j].place)
  }

  /** Appending row hi - 1, drawn left to right, to rows lo .. hi - 2 drawn in
      row-major order gives rows lo .. hi - 1 in row-major order. */
  lemma RowMajorAppend(r: seq<DrawEvent>, c: seq<DrawEvent>, rows: seq<seq<Cell>>, lo: nat, hi: nat)
    requires lo < hi <= |rows|
    requires AllInRows(r, rows, lo, hi - 1) && RowMajor(r)
    requires AllInRow(c, hi - 1, |rows[hi - 1]|) && LeftToRight(c)
    ensures AllInRows(r + c, rows, lo, hi) && RowMajor(r + c)
  {
    var e := r + c;
    forall i | 0 <= i < |e|
      ensures && e[i].place.CellAt? && lo <= e[i].place.y < hi && 0 <= e[i].place.y < |rows|
              && 0 <= e[i].place.x < |rows[e[i].place.y]|
    {
      if i < |r| { assert e[i] == r[i]; } else { assert e[i] == c[i - |r|]; }
    }
    forall i, j | 0 <= i < j < |e| && e[i].place.CellAt? && e[j].place.CellAt?
      ensures Before(e[i].place, e[j].place)
    {
      if j < |r| {
        assert e[i] == r[i] && e[j] == r[j];
      } else if i >= |r| {
        assert e[i] == c[i - |r|] && e[j] == c[j - |r|];
      } else {
        assert e[i] == r[i] && e[j] == c[j - |r|];
      }
    }
  }

  /** Parts that each draw row lo + j left to right make rows lo .. lo + |ss| - 1
      drawn in row-major order. */
  lemma {:induction false} FlattenRows(ss: seq<seq<DrawEvent>>, rows: seq<seq<Cell>>, lo: nat)
    requires lo + |ss| <= |rows|
    requires forall j :: 0 <= j < |ss| ==> AllInRow(ss[j], lo + j, |rows[lo + j]|) && LeftToRight(ss[j])
    ensures AllInRows(Flatten(ss), rows, lo, lo + |ss|) && RowMajor(Flatten(ss))
    decreases |ss|
  {
    if ss != [] {
      var m := |ss| - 1;
      FlattenRows(ss[..m], rows, lo);
      assert Flatten(ss) == Flatten(ss[..m]) + ss[m];
      RowMajorAppend(Flatten(ss[..m]), ss[m], rows, lo, lo + m + 1);
    }
  }

  /** The draw calls of rows lo .. hi - 1 are all at cells of those rows, in
      row-major order. */
  lemma RowsDrawsInOrder(tiles: map<int, Tile>, tileSize: int, rows: seq<seq<Cell>>, lo: nat, hi: nat)
    requires Drawable(tiles, tileSize) && lo <= hi <= |rows|
    ensures AllInRows(RowsDraws(tiles, tileSize, rows, lo, hi), rows, lo, hi)
    ensures RowMajor(RowsDraws(tiles, tileSize, rows, lo, hi))
  {
    var ss := RowsOf(tiles, tileSize, rows, lo, hi);
    forall j | 0 <= j < |ss|
      ensures AllInRow(ss[j], lo + j, |rows[lo + j]|) && LeftToRight(ss[j])
    {
      var row, y := rows[lo + j], lo + j;
      RowDrawsInOrder(tiles, tileSize, row, y);
      assert ss[j] == RowDraws(tiles, tileSize, row, y);
    }
    FlattenRows(ss, rows, lo);
  }

  /** The actor's row: the ceiling of its animated vertical position. */
  function ActorRow(actor: Actor): (r: int)
    ensures r as real - 1.0 < actor.animatedY <= r as real
  {
    Ceil(actor.animatedY)
  }

  /** The first row drawn after the actor: the rows before it are those at or
      above the actor's rounded-up row. */
  function SplitRow(board: Board, actor: Actor): (k: nat)
    requires ActorRow(actor) >= -1
    ensures k <= board.Height()
    ensures k < board.Height() ==> actor.animatedY <= (k - 1) as real
    ensures k > 0 ==> (k - 2) as real < actor.animatedY
  {
    Min(ActorRow(actor) + 1, board.Height())
  }

  /** The draw calls of one frame. */
  function FrameDraws(tiles: map<int, Tile>, tileSize: int, board: Board, actor: Actor): (e: seq<DrawEvent>)
    requires Drawable(tiles, tileSize) && ActorRow(actor) >= -1
    ensures board.rows == [] ==>
              e == TileDraw(tiles, tileSize, actor.tileId, ActorAt(actor.animatedX, actor.animatedY))
  {
    var k := SplitRow(board, actor);
    RowsDraws(tiles, tileSize, board.rows, 0, k)
    + TileDraw(tiles, tileSize, actor.tileId, ActorAt(actor.animatedX, actor.animatedY))
    + RowsDraws(tiles, tileSize, board.rows, k, board.Height())
  }

  /** The draw calls that put something at place p, in order. */
  function At(e: seq<DrawEvent>, p: Place): (r: seq<DrawEvent>)
    ensures |r| <= |e|
    ensures forall i :: 0 <= i < |r| ==> r[i].place == p
    decreases |e|
  {
    if e == [] then []
    else At(e[..|e| - 1], p) + (if e[|e| - 1].place == p then [e[|e| - 1]] else [])
  }

  lemma {:induction false} AtConcat(a: seq<DrawEvent>, b: seq<DrawEvent>, p: Place)
    ensures At(a + b, p) == At(a, p) + At(b, p)
    decreases |b|
  {
    if b == [] {
      assert a + b == a;
    } else {
      var b' := b[..|b| - 1];
      assert (a + b)[..|a + b| - 1] == a + b';
      AtConcat(a, b', p);
    }
  }

  lemma {:induction false} AtAll(e: seq<DrawEvent>, p: Place)
    requires AllAt(e, p)
    ensures At(e, p) == e
    decreases |e|
  {
    if e != [] {
      AtAll(e[..|e| - 1], p);
    }
  }

  lemma {:induction false} AtNone(e: seq<DrawEvent>, p: Place)
    requires forall i :: 0 <= i < |e| ==> e[i].place != p
    ensures At(e, p) == []
    decreases |e|
  {
    if e != [] {
      AtNone(e[..|e| - 1], p);
    }
  }

  /** No part draws at p, so neither does the whole. */
  lemma {:induction false} AtFlattenNone(ss: seq<seq<DrawEvent>>, p: Place)
    requires forall j :: 0 <= j < |ss| ==> At(ss[j], p) == []
    ensures At(Flatten(ss), p) == []
    decreases |ss|
  {
    if ss != [] {
      var m := |ss| - 1;
      AtFlattenNone(ss[..m], p);
      assert Flatten(ss) == Flatten(ss[..m]) + ss[m];
      AtConcat(Flatten(ss[..m]), ss[m], p);
    }
  }

  /** Only part k draws at p, so the whole draws there what part k does. */
  lemma {:induction false} AtFlattenOne(ss: seq<seq<DrawEvent>>, p: Place, k: nat)
    requires k < |ss|
    requires forall j :: 0 <= j < |ss| && j != k ==> At(ss[j], p) == []
    ensures At(Flatten(ss), p) == At(ss[k], p)
    decreases |ss|
  {
    var m := |ss| - 1;
    assert Flatten(ss) == Flatten(ss[..m]) + ss[m];
    AtConcat(Flatten(ss[..m]), ss[m], p);
    if k == m {
      AtFlattenNone(ss[..m], p);
      assert [] + At(ss[k], p) == At(ss[k], p);
    } else {
      AtFlattenOne(ss[..m], p, k);
      assert At(ss[k], p) + [] == At(ss[k], p);
    }
  }

  lemma AtCell(tiles: map<int, Tile>, tileSize: int, c: Cell, x: int, y: int, p: Place)
    requires Drawable(tiles, tileSize)
    ensures At(CellDraws(tiles, tileSize, c, x, y), p)
            == if p == CellAt(x, y) then CellDraws(tiles, tileSize, c, x, y) else []
  {
    CellDrawsAtCell(tiles, tileSize, c, x, y);
    if p == CellAt(x, y) {
      AtAll(CellDraws(tiles, tileSize, c, x, y), p);
    } else {
      AtNone(CellDraws(tiles, tileSize, c, x, y), p);
    }
  }

  /** Within row y, cell x is drawn once, by its own draw calls. */
  lemma AtRow(tiles: map<int, Tile>, tileSize: int, row: seq<Cell>, y: int, x: int, y': int)
    requires Drawable(tiles, tileSize)
    ensures y == y' && 0 <= x < |row| ==>
              At(RowDraws(tiles, tileSize, row, y), CellAt(x, y')) == CellDraws(tiles, tileSize, row[x], x, y)
    ensures !(y == y' && 0 <= x < |row|) ==> At(RowDraws(tiles, tileSize, row, y), CellAt(x, y')) == []
  {
    var p := CellAt(x, y');
    var ss := CellsOfRow(tiles, tileSize, row, y);
    forall j | 0 <= j < |ss|
      ensures At(ss[j], p) == if j == x && y == y' then ss[j] else []
    {
      AtCell(tiles, tileSize, row[j], j, y, p);
    }
    if y == y' && 0 <= x < |row| {
      AtFlattenOne(ss, p, x);
    } else {
      AtFlattenNone(ss, p);
    }
  }

  /** Within rows lo .. hi - 1, every cell is drawn once, by its own draw calls. */
  lemma AtRows(tiles: map<int, Tile>, tileSize: int, rows: seq<seq<Cell>>, lo: nat, hi: nat, x: int, y: int)
    requires Drawable(tiles, tileSize) && lo <= hi <= |rows|
    ensures lo <= y < hi && 0 <= x < |rows[y]| ==>
              At(RowsDraws(tiles, tileSize, rows, lo, hi), CellAt(x, y)) == CellDraws(tiles, tileSize, rows[y][x], x, y)
    ensures !(lo <= y < hi && 0 <= x < |rows[y]|) ==> At(RowsDraws(tiles, tileSize, rows, lo, hi), CellAt(x, y)) == []
  {
    var p := CellAt(x, y);
    var ss := RowsOf(tiles, tileSize, rows, lo, hi);
    forall j | 0 <= j < |ss|
      ensures lo + j == y && 0 <= x < |rows[y]| ==> At(ss[j], p) == CellDraws(tiles, tileSize, rows[y][x], x, y)
      ensures !(lo + j == y && 0 <= x < |rows[lo + j]|) ==> At(ss[j], p) == []
    {
      AtRow(tiles, tileSize, rows[lo + j], lo + j, x, y);
    }
    if lo <= y < hi && 0 <= x < |rows[y]| {
      AtFlattenOne(ss, p, y - lo);
    } else {
      AtFlattenNone(ss, p);
    }
  }

  /** A concatenation of three parts, only the first or the last of which draw
      at p, draws there what that part does. */
  lemma AtThree(a: seq<DrawEvent>, t: seq<DrawEvent>, b: seq<DrawEvent>, p: Place,
                w: seq<DrawEvent>, inA: bool, inB: bool)
    requires !(inA && inB)
    requires At(a, p) == (if inA then w else [])
    requires At(t, p) == []
    requires At(b, p) == (if inB then w else [])
    ensures At(a + t + b, p) == (if inA || inB then w else [])
  {
    AtConcat(a + t, b, p);
    AtConcat(a, t, p);
    if inA {
      assert w + [] + [] == w;
    } else if inB {
      assert [] + [] + w == w;
    } else {
      assert At(a, p) + At(t, p) + At(b, p) == [];
    }
  }

  /** Every cell of the board is drawn exactly once per frame: the draw calls
      at a cell are its ground tile and then its overlay, skipping unknown
      ids; there are none at places off the board. */
  lemma FrameDrawsEachCellOnce(tiles: map<int, Tile>, tileSize: int, board: Board, actor: Actor,
                               x: int, y: int)
    requires Drawable(tiles, tileSize) && ActorRow(actor) >= -1
    ensures 0 <= y < board.Height() && 0 <= x < |board.rows[y]| ==>
              At(FrameDraws(tiles, tileSize, board, actor), CellAt(x, y))
              == CellDraws(tiles, tileSize, board.rows[y][x], x, y)
    ensures !(0 <= y < board.Height() && 0 <= x < |board.rows[y]|) ==>
              At(FrameDraws(tiles, tileSize, board, actor), CellAt(x, y)) == []
  {
    var p := CellAt(x, y);
    var k := SplitRow(board, actor);
    var a := RowsDraws(tiles, tileSize, board.rows, 0, k);
    var t := TileDraw(tiles, tileSize, actor.tileId, ActorAt(actor.animatedX, actor.animatedY));
    var b := RowsDraws(tiles, tileSize, board.rows, k, board.Height());
    var onBoard := 0 <= y < board.Height() && 0 <= x < |board.rows[y]|;
    var w := if onBoard then CellDraws(tiles, tileSize, board.rows[y][x], x, y) else [];
    AtRows(tiles, tileSize, board.rows, 0, k, x, y);
    AtRows(tiles, tileSize, board.rows, k, board.Height(), x, y);
    AtNone(t, p);
    AtThree(a, t, b, p, w, onBoard && y < k, onBoard && k <= y);
    assert FrameDraws(tiles, tileSize, board, actor) == a + t + b;
  }

  /** The actor is drawn once per frame when its tile is registered, and not
      at all otherwise. */
  lemma FrameDrawsActorOnce(tiles: map<int, Tile>, tileSize: int, board: Board, actor: Actor)
    requires Drawable(tiles, tileSize) && ActorRow(actor) >= -1
    ensures var p := ActorAt(actor.animatedX, actor.animatedY);
            At(FrameDraws(tiles, tileSize, board, actor), p) == TileDraw(tiles, tileSize, actor.tileId, p)
  {
    var p := ActorAt(actor.animatedX, actor.animatedY);
    var k := SplitRow(board, actor);
    var a := RowsDraws(tiles, tileSize, board.rows, 0, k);
    var t := TileDraw(tiles, tileSize, actor.tileId, p);
    var b := RowsDraws(tiles, tileSize, board.rows, k, board.Height());
    AtConcat(a + t, b, p);
    AtConcat(a, t, p);
    RowsDrawsInOrder(tiles, tileSize, board.rows, 0, k);
    RowsDrawsInOrder(tiles, tileSize, board.rows, k, board.Height());
    AtNone(a, p);
    AtAll(t, p);
    AtNone(b, p);
    assert FrameDraws(tiles, tileSize, board, actor) == a + t + b;
  }

  /** Every draw call is at a cell, or is the actor's tile at the actor's position. */
  predicate CellsOrActor(e: seq<DrawEvent>, actor: Actor) {
    forall i :: 0 <= i < |e| ==>
      e[i].place.CellAt? || (e[i].place == ActorAt(actor.animatedX, actor.animatedY) && e[i].tileId == actor.tileId)
  }

  /** Cells of rows up to actorRow come before the actor's draw call, the
      other cells after it. */
  predicate ActorBetweenRows(e: seq<DrawEvent>, actorRow: int) {
    forall i, j :: 0 <= i < |e| && 0 <= j < |e| && e[i].place.CellAt? && e[j].place.ActorAt? ==>
      (e[i].place.y <= actorRow <==> i < j)
  }

  /** Rows 0 .. k - 1, then the actor's own draw calls, then rows k and below,
      where k is the row after actorRow: the cells are in row-major order,
      every other call is the actor's, and a cell precedes the actor's call
      exactly when its row is at or above actorRow. */
  lemma SplitFrameOrder(a: seq<DrawEvent>, t: seq<DrawEvent>, b: seq<DrawEvent>, rows: seq<seq<Cell>>,
                        k: nat, actor: Actor, actorRow: int)
    requires k == Min(actorRow + 1, |rows|)
    requires AllInRows(a, rows, 0, k) && RowMajor(a)
    requires AllInRows(b, rows, k, |rows|) && RowMajor(b)
    requires AllAt(t, ActorAt(actor.animatedX, actor.animatedY))
    requires forall i :: 0 <= i < |t| ==> t[i].tileId == actor.tileId
    ensures CellsOrActor(a + t + b, actor) && RowMajor(a + t + b)
    ensures ActorBetweenRows(a + t + b, actorRow)
  {
    var e := a + t + b;
    forall i | 0 <= i < |e|
      ensures i < |a| ==> e[i].place.CellAt? && e[i].place.y < k
      ensures |a| <= i < |a| + |t| ==> e[i] == t[i - |a|]
      ensures i >= |a| + |t| ==> e[i].place.CellAt? && k <= e[i].place.y < |rows|
    {
      if i < |a| {
        assert e[i] == a[i];
      } else if i >= |a| + |t| {
        assert e[i] == b[i - |a| - |t|];
      } else {
        assert e[i] == t[i - |a|];
      }
    }
    forall i, j | 0 <= i < j < |e| && e[i].place.CellAt? && e[j].place.CellAt?
      ensures Before(e[i].place, e[j].place)
    {
      if j < |a| {
        assert e[i] == a[i] && e[j] == a[j];
      } else if i >= |a| + |t| {
        assert e[i] == b[i - |a| - |t|] && e[j] == b[j - |a| - |t|];
      }
    }
  }

  /** The actor's draw call is at its position and of its tile. */
  lemma TileDrawAt(tiles: map<int, Tile>, tileSize: int, id: int, place: Place)
    requires Drawable(tiles, tileSize)
    ensures AllAt(TileDraw(tiles, tileSize, id, place), place)
    ensures forall i :: 0 <= i < |TileDraw(tiles, tileSize, id, place)| ==>
              TileDraw(tiles, tileSize, id, place)[i].tileId == id
  {
  }

  /** Board cells are drawn in row-major order, and every other draw call is
      the actor's. */
  lemma FrameDrawsInRowOrder(tiles: map<int, Tile>, tileSize: int, board: Board, actor: Actor)
    requires Drawable(tiles, tileSize) && ActorRow(actor) >= -1
    ensures CellsOrActor(FrameDraws(tiles, tileSize, board, actor), actor)
    ensures RowMajor(FrameDraws(tiles, tileSize, board, actor))
  {
    var k := SplitRow(board, actor);
    var a := RowsDraws(tiles, tileSize, board.rows, 0, k);
    var t := TileDraw(tiles, tileSize, actor.tileId, ActorAt(actor.animatedX, actor.animatedY));
    var b := RowsDraws(tiles, tileSize, board.rows, k, board.Height());
    RowsDrawsInOrder(tiles, tileSize, board.rows, 0, k);
    RowsDrawsInOrder(tiles, tileSize, board.rows, k, board.Height());
    TileDrawAt(tiles, tileSize, actor.tileId, ActorAt(actor.animatedX, actor.animatedY));
    SplitFrameOrder(a, t, b, board.rows, k, actor, ActorRow(actor));
    assert FrameDraws(tiles, tileSize, board, actor) == a + t + b;
  }

  /** The depth policy: a cell is drawn before the actor exactly when its row
      is at or above the actor's row. */
  lemma FrameDrawsActorBetweenRows(tiles: map<int, Tile>, tileSize: int, board: Board, actor: Actor)
    requires Drawable(tiles, tileSize) && ActorRow(actor) >= -1
    ensures ActorBetweenRows(FrameDraws(tiles, tileSize, board, actor), ActorRow(actor))
  {
    var k := SplitRow(board, actor);
    var a := RowsDraws(tiles, tileSize, board.rows, 0, k);
    var t := TileDraw(tiles, tileSize, actor.tileId, ActorAt(actor.animatedX, actor.animatedY));
    var b := RowsDraws(tiles, tileSize, board.rows, k, board.Height());
    RowsDrawsInOrder(tiles, tileSize, board.rows, 0, k);
    RowsDrawsInOrder(tiles, tileSize, board.rows, k, board.Height());
    TileDrawAt(tiles, tileSize, actor.tileId, ActorAt(actor.animatedX, actor.animatedY));
    SplitFrameOrder(a, t, b, board.rows, k, actor, ActorRow(actor));
    assert FrameDraws(tiles, tileSize, board, actor) == a + t + b;
  }

  /** A cell whose tiles were never registered produces no draw call. */
  lemma UnknownCellDrawsNothing(tiles: map<int, Tile>, tileSize: int, board: Board, actor: Actor,
                                x: int, y: int)
    requires Drawable(tiles, tileSize) && ActorRow(actor) >= -1
    requires 0 <= y < board.Height() && 0 <= x < |board.rows[y]|
    requires board.rows[y][x].ground !in tiles
    requires board.rows[y][x].layer == 0 || board.rows[y][x].layer !in tiles
    ensures At(FrameDraws(tiles, tileSize, board, actor), CellAt(x, y)) == []
  {
    FrameDrawsEachCellOnce(tiles, tileSize, board, actor, x, y);
  }
}
