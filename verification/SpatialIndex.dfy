/**
 * The two-level spatial index of the matcher (profiles/apizzamichigan/src/matching-v1.ts:450-566):
 * padded one-degree tiles select rows from the snapshot, a grid of 0.02-degree cells serves lookups.
 */
module SpatialIndex {
  import opened Wrappers
  import opened Sequences
  import opened JsonGrammar
  import Canonical

  /** An identifier as its UTF-8 bytes, the order snapshots and decisions are sorted by. */
  type Id = Text

  datatype Point = Point(lat: real, lng: real)

  datatype Place = Place(id: Id, name: Option<string>, website: Option<string>, phone: Option<string>, at: Point)

  predicate IsCoordinate(p: Point)
  {
    -90.0 <= p.lat <= 90.0 && -180.0 <= p.lng <= 180.0
  }

  predicate IsPlaceId(id: Id)
  {
    id != [] && |id| <= 256
  }

  /** What a snapshot row must satisfy on its own. */
  predicate PlaceOk(r: Place)
  {
    IsPlaceId(r.id) && IsCoordinate(r.at)
  }

  /** Trigonometry and text comparison, which the model leaves abstract. */
  datatype Geo = Geo(distance: (Point, Point) -> real, cosine: real -> real)

  const MAX_DISTANCE := 100.0
  const METERS_PER_DEGREE := 111320.0
  const GRID_CELL := 0.02
  const CELL_RADIUS: int := RadiusOf(MAX_DISTANCE / METERS_PER_DEGREE / GRID_CELL)

  /** One cell more than the distance limit spans, rounded up. */
  function RadiusOf(cells: real): (r: int)
    ensures r >= 1
  {
    if -(-cells).Floor + 1 < 1 then 1 else -(-cells).Floor + 1
  }

  // Tiles

  type Cell = (int, int)

  function TileOf(p: Point): Cell
  {
    (p.lat.Floor, p.lng.Floor)
  }

  datatype Box = Box(minLat: real, maxLat: real, minLng: real, maxLng: real)

  predicate Contains(b: Box, p: Point)
  {
    b.minLat <= p.lat <= b.maxLat && b.minLng <= p.lng <= b.maxLng
  }

  /** `b` is the tightest box around the points of one tile. */
  ghost predicate IsExtent(b: Box, points: seq<Point>, tile: Cell)
  {
    && (forall p :: p in points && TileOf(p) == tile ==> Contains(b, p))
    && (exists p :: p in points && TileOf(p) == tile && p.lat == b.minLat)
    && (exists p :: p in points && TileOf(p) == tile && p.lat == b.maxLat)
    && (exists p :: p in points && TileOf(p) == tile && p.lng == b.minLng)
    && (exists p :: p in points && TileOf(p) == tile && p.lng == b.maxLng)
  }

  function LatitudePadding(): real
  {
    MAX_DISTANCE / METERS_PER_DEGREE
  }

  function LongitudePadding(geo: Geo, latitude: real): real
  {
    var cosine := geo.cosine(latitude);
    MAX_DISTANCE / (METERS_PER_DEGREE * if cosine > 0.01 then cosine else 0.01)
  }

  function Padded(geo: Geo, b: Box): Box
  {
    var lng := LongitudePadding(geo, (b.minLat + b.maxLat) / 2.0);
    Box(b.minLat - LatitudePadding(), b.maxLat + LatitudePadding(), b.minLng - lng, b.maxLng + lng)
  }

  /** The plain reading of the prefetch: a row is kept when the padded box of some tile of the points holds it. */
  ghost predicate InSomeBox(geo: Geo, points: seq<Point>, p: Point)
  {
    exists tile, b :: IsExtent(b, points, tile) && Contains(Padded(geo, b), p)
  }

  lemma PaddingIsSmall(geo: Geo, latitude: real)
    ensures 0.0 < LatitudePadding() < 1.0
    ensures 0.0 < LongitudePadding(geo, latitude) < 1.0
  {
    var cosine := geo.cosine(latitude);
    var d := METERS_PER_DEGREE * if cosine > 0.01 then cosine else 0.01;
    assert d >= 1113.2;
    assert MAX_DISTANCE / d < 1.0;
  }

  lemma OneExtent(a: Box, b: Box, points: seq<Point>, tile: Cell)
    requires IsExtent(a, points, tile) && IsExtent(b, points, tile)
    ensures a == b
  {
  }

  /** A padded box reaches into the eight tiles around its own and no further. */
  lemma BoxesReachOneTile(geo: Geo, b: Box, points: seq<Point>, tile: Cell, p: Point)
    requires IsExtent(b, points, tile) && Contains(Padded(geo, b), p)
    ensures -1 <= TileOf(p).0 - tile.0 <= 1 && -1 <= TileOf(p).1 - tile.1 <= 1
  {
    PaddingIsSmall(geo, (b.minLat + b.maxLat) / 2.0);
  }

  ghost predicate AreBoxes(geo: Geo, boxes: map<Cell, Box>, points: seq<Point>)
  {
    && (forall tile :: tile in boxes <==> exists p :: p in points && TileOf(p) == tile)
    && (forall tile :: tile in boxes ==> exists b :: IsExtent(b, points, tile) && boxes[tile] == Padded(geo, b))
  }

  ghost predicate AreExtents(tiles: map<Cell, Box>, points: seq<Point>)
  {
    && (forall tile :: tile in tiles <==> exists p :: p in points && TileOf(p) == tile)
    && (forall tile :: tile in tiles ==> IsExtent(tiles[tile], points, tile))
  }

  /** The tile of a point, widened to hold it. */
  function Widened(tiles: map<Cell, Box>, p: Point): Box
  {
    if TileOf(p) in tiles then
      var b := tiles[TileOf(p)];
      Box(if p.lat < b.minLat then p.lat else b.minLat, if p.lat > b.maxLat then p.lat else b.maxLat,
          if p.lng < b.minLng then p.lng else b.minLng, if p.lng > b.maxLng then p.lng else b.maxLng)
    else Box(p.lat, p.lat, p.lng, p.lng)
  }

  /** buildPrefetchBoxes */
  method BuildPrefetchBoxes(geo: Geo, points: seq<Point>) returns (boxes: map<Cell, Box>)
    ensures AreBoxes(geo, boxes, points)
    ensures |boxes| <= |points| && (|boxes| == 0 <==> |points| == 0)
  {
    hide AreExtents, Widened, AreBoxes;
    var tiles: map<Cell, Box> := map[];
    NoExtents();
    for i := 0 to |points|
      invariant AreExtents(tiles, points[..i])
      invariant |tiles| <= i && (i > 0 ==> |tiles| > 0)
    {
      assert points[..i + 1] == points[..i] + [points[i]];
      ExtentStep(tiles, points[..i], points[i]);
      tiles := tiles[TileOf(points[i]) := Widened(tiles, points[i])];
    }
    assert points[..|points|] == points;
    boxes := map tile | tile in tiles :: Padded(geo, tiles[tile]);
    PadAll(geo, tiles, points, boxes);
  }

  lemma NoExtents()
    ensures AreExtents(map[], [])
  {
  }

  lemma PadAll(geo: Geo, tiles: map<Cell, Box>, points: seq<Point>, boxes: map<Cell, Box>)
    requires AreExtents(tiles, points)
    requires boxes == map tile | tile in tiles :: Padded(geo, tiles[tile])
    ensures AreBoxes(geo, boxes, points) && |boxes| == |tiles|
  {
    hide IsExtent, Padded, TileOf;
    assert boxes.Keys == tiles.Keys;
    assert |boxes| == |boxes.Keys| && |tiles| == |tiles.Keys|;
  }

  lemma ExtentStep(tiles: map<Cell, Box>, points: seq<Point>, p: Point)
    requires AreExtents(tiles, points)
    ensures AreExtents(tiles[TileOf(p) := Widened(tiles, p)], points + [p])
  {
    hide IsExtent, TileOf, Widened;
    assert p in points + [p];
    var after := tiles[TileOf(p) := Widened(tiles, p)];
    forall tile | tile in after ensures IsExtent(after[tile], points + [p], tile) {
      ExtentGrows(tiles, points, p, tile);
    }
  }

  lemma ExtentGrows(tiles: map<Cell, Box>, points: seq<Point>, p: Point, tile: Cell)
    requires AreExtents(tiles, points) && tile in tiles[TileOf(p) := Widened(tiles, p)]
    ensures IsExtent(tiles[TileOf(p) := Widened(tiles, p)][tile], points + [p], tile)
  {
    assert p in points + [p];
    assert forall q :: q in points ==> q in points + [p];
    if tile == TileOf(p) && tile !in tiles {
      assert forall q :: q in points ==> TileOf(q) != tile;
    }
  }

  // Prefetch

  predicate Hits(boxes: map<Cell, Box>, tile: Cell, p: Point)
  {
    tile in boxes && Contains(boxes[tile], p)
  }

  predicate Adjacent(a: Cell, b: Cell)
  {
    -1 <= a.0 - b.0 <= 1 && -1 <= a.1 - b.1 <= 1
  }

  /** The nine probes around the row's own tile. */
  method Probe(boxes: map<Cell, Box>, p: Point) returns (found: bool)
    ensures found <==> exists tile :: Adjacent(tile, TileOf(p)) && Hits(boxes, tile, p)
  {
    var own := TileOf(p);
    for i := -1 to 2
      invariant forall tile :: Adjacent(tile, own) && tile.0 - own.0 < i ==> !Hits(boxes, tile, p)
    {
      for j := -1 to 2
        invariant forall tile :: Adjacent(tile, own) && tile.0 - own.0 < i ==> !Hits(boxes, tile, p)
        invariant forall tile :: Adjacent(tile, own) && tile.0 - own.0 == i && tile.1 - own.1 < j ==>
                    !Hits(boxes, tile, p)
      {
        var tile := (own.0 + i, own.1 + j);
        if Hits(boxes, tile, p) {
          assert Adjacent(tile, own);
          return true;
        }
        assert forall t: Cell :: t.0 - own.0 == i && t.1 - own.1 == j ==> t == tile;
      }
    }
    found := false;
  }

  /** The nine probes lose no row that some padded box holds. */
  lemma ProbesAreEnough(geo: Geo, boxes: map<Cell, Box>, points: seq<Point>, p: Point)
    requires AreBoxes(geo, boxes, points)
    ensures InSomeBox(geo, points, p) <==> exists tile :: Adjacent(tile, TileOf(p)) && Hits(boxes, tile, p)
  {
    hide IsExtent, TileOf, Padded;
    if InSomeBox(geo, points, p) {
      var tile, b :| IsExtent(b, points, tile) && Contains(Padded(geo, b), p);
      BoxesReachOneTile(geo, b, points, tile, p);
      ExtentHasTile(b, points, tile);
      var c :| IsExtent(c, points, tile) && boxes[tile] == Padded(geo, c);
      OneExtent(b, c, points, tile);
      assert Hits(boxes, tile, p);
    }
    if tile :| Adjacent(tile, TileOf(p)) && Hits(boxes, tile, p) {
      var c :| IsExtent(c, points, tile) && boxes[tile] == Padded(geo, c);
    }
  }

  lemma ExtentHasTile(b: Box, points: seq<Point>, tile: Cell)
    requires IsExtent(b, points, tile)
    ensures exists p :: p in points && TileOf(p) == tile
  {
  }

  ghost function BoxScan(geo: Geo, points: seq<Point>, rows: seq<Place>): seq<Place>
  {
    Filter((r: Place) => InSomeBox(geo, points, r.at), rows)
  }

  lemma NothingScanned(geo: Geo, points: seq<Point>)
    ensures BoxScan(geo, points, []) == []
  {
  }

  lemma BoxScanStep(geo: Geo, points: seq<Point>, rows: seq<Place>, row: Place)
    ensures BoxScan(geo, points, rows + [row]) == BoxScan(geo, points, rows) + if InSomeBox(geo, points, row.at) then
            [row] else []
  {
    hide InSomeBox;
    assert (rows + [row])[..|rows|] == rows;
  }

  /** prefetchCanonicalRows keeps exactly the rows a scan of all padded boxes keeps, in snapshot order. */
  method PrefetchCanonicalRows(geo: Geo, rows: seq<Place>, boxes: map<Cell, Box>, ghost points: seq<Point>)
    returns (kept: seq<Place>)
    requires AreBoxes(geo, boxes, points)
    ensures kept == BoxScan(geo, points, rows)
  {
    hide InSomeBox, BoxScan, AreBoxes, Hits, Adjacent;
    kept := [];
    NothingScanned(geo, points);
    for i := 0 to |rows|
      invariant kept == BoxScan(geo, points, rows[..i])
    {
      BoxScanStep(geo, points, rows[..i], rows[i]);
      assert rows[..i + 1] == rows[..i] + [rows[i]];
      ProbesAreEnough(geo, boxes, points, rows[i].at);
      var found := Probe(boxes, rows[i].at);
      if found { kept := kept + [rows[i]]; }
    }
    assert rows[..|rows|] == rows;
  }

  // Grid

  function GridCell(p: Point): Cell
  {
    ((p.lat / GRID_CELL).Floor, (p.lng / GRID_CELL).Floor)
  }

  function CellRows(rows: seq<Place>, cell: Cell): seq<Place>
  {
    Filter((r: Place) => GridCell(r.at) == cell, rows)
  }

  ghost predicate IsGrid(grid: map<Cell, seq<Place>>, rows: seq<Place>)
  {
    && (forall cell :: cell in grid <==> exists r :: r in rows && GridCell(r.at) == cell)
    && (forall cell :: cell in grid ==> grid[cell] == CellRows(rows, cell))
  }

  method BuildGrid(rows: seq<Place>) returns (grid: map<Cell, seq<Place>>)
    ensures IsGrid(grid, rows)
    ensures |grid| <= |rows| && (|grid| == 0 <==> |rows| == 0)
  {
    hide IsGrid, CellRows;
    grid := map[];
    NoGrid();
    for i := 0 to |rows|
      invariant IsGrid(grid, rows[..i])
      invariant |grid| <= i && (i > 0 ==> |grid| > 0)
    {
      var cell := GridCell(rows[i].at);
      assert rows[..i + 1] == rows[..i] + [rows[i]];
      GridStep(grid, rows[..i], rows[i]);
      grid := grid[cell := (if cell in grid then grid[cell] else []) + [rows[i]]];
    }
    assert rows[..|rows|] == rows;
  }

  lemma NoGrid()
    ensures IsGrid(map[], [])
  {
  }

  lemma CellRowsStep(rows: seq<Place>, row: Place, cell: Cell)
    ensures CellRows(rows + [row], cell) == CellRows(rows, cell) + if GridCell(row.at) == cell then [row] else []
  {
    assert (rows + [row])[..|rows|] == rows;
  }

  lemma {:induction false} CellRowsEmpty(rows: seq<Place>, cell: Cell)
    requires forall r :: r in rows ==> GridCell(r.at) != cell
    ensures CellRows(rows, cell) == []
  {
    if rows != [] {
      CellRowsEmpty(rows[..|rows| - 1], cell);
    }
  }

  lemma GridStep(grid: map<Cell, seq<Place>>, rows: seq<Place>, row: Place)
    requires IsGrid(grid, rows)
    ensures var cell := GridCell(row.at);
            IsGrid(grid[cell := (if cell in grid then grid[cell] else []) + [row]], rows + [row])
  {
    hide CellRows, GridCell;
    var cell := GridCell(row.at);
    if cell !in grid {
      CellRowsEmpty(rows, cell);
    }
    forall c ensures CellRows(rows + [row], c) == CellRows(rows, c) + if cell == c then [row] else [] {
      CellRowsStep(rows, row, c);
    }
    assert row in rows + [row];
    assert forall r :: r in rows ==> r in rows + [row];
  }

  // Lookup

  datatype Neighbour = Neighbour(place: Place, distance: real)

  predicate Closer(a: Neighbour, b: Neighbour)
  {
    a.distance < b.distance || (a.distance == b.distance && Canonical.LexBefore(a.place.id, b.place.id))
  }

  /** Rows in strictly increasing id order, as a snapshot is checked to be. */
  predicate IdsIncrease(rows: seq<Place>)
  {
    forall i, j :: 0 <= i < j < |rows| ==> Canonical.LexBefore(rows[i].id, rows[j].id)
  }

  function NeighbourOf(geo: Geo, p: Point, r: Place): Neighbour
  {
    Neighbour(r, geo.distance(p, r.at))
  }

  /** The rows a plain scan finds within the limit. */
  ghost function Within(geo: Geo, p: Point, rows: set<Place>): set<Neighbour>
  {
    set r | r in rows && geo.distance(p, r.at) <= MAX_DISTANCE :: NeighbourOf(geo, p, r)
  }

  ghost predicate IsRanking(s: seq<Neighbour>, found: set<Neighbour>)
  {
    && (forall i, j :: 0 <= i < j < |s| ==> Closer(s[i], s[j]))
    && (forall n :: n in found <==> n in s)
  }

  function FirstTen<T>(s: seq<T>): seq<T>
  {
    if |s| <= 10 then s else s[..10]
  }

  /**
   * Distances up to the limit to points on the map stay within two grid cells in either direction. Nothing is
   * asked of points off the map, where a great-circle distance repeats itself.
   */
  ghost predicate Bounds(geo: Geo, p: Point)
  {
    forall q :: IsCoordinate(q) && geo.distance(p, q) <= MAX_DISTANCE ==>
      -2.0 * GRID_CELL <= q.lat - p.lat <= 2.0 * GRID_CELL && -2.0 * GRID_CELL <= q.lng - p.lng <= 2.0 * GRID_CELL
  }

  lemma WithinTwoCells(geo: Geo, p: Point, q: Point)
    requires Bounds(geo, p) && IsCoordinate(q) && geo.distance(p, q) <= MAX_DISTANCE
    ensures -CELL_RADIUS <= GridCell(q).0 - GridCell(p).0 <= CELL_RADIUS
    ensures -CELL_RADIUS <= GridCell(q).1 - GridCell(p).1 <= CELL_RADIUS
  {
  }
}
