/**
 * The tiling of a bounding box (packages/food-runtime/scripts/ops/export-overture-tiles.py:48-61), in
 * integer micro-degrees: the tiles cover the box, stay inside it and overlap at their edges only.
 */
module OvertureTiles {
  datatype Box = Box(south: int, west: int, north: int, east: int)

  function Min(a: int, b: int): int
  {
    if a < b then a else b
  }

  predicate IsBox(b: Box)
  {
    b.south < b.north && b.west < b.east
  }

  /** Edges belong to a tile, as in the BETWEEN of its query. */
  predicate Holds(b: Box, lat: real, lng: real)
  {
    b.south as real <= lat <= b.north as real && b.west as real <= lng <= b.east as real
  }

  predicate HoldsInside(b: Box, lat: real, lng: real)
  {
    (b.south as real) < lat < (b.north as real) && (b.west as real) < lng < (b.east as real)
  }

  function TileRow(box: Box, step: nat, lat: int, lng: int): seq<Box>
    requires step > 0
    decreases box.east - lng
  {
    if lng >= box.east then []
    else [Box(lat, lng, Min(lat + step, box.north), Min(lng + step, box.east))] + TileRow(box, step, lat, lng + step)
  }

  function TileGrid(box: Box, step: nat, lat: int): seq<Box>
    requires step > 0
    decreases box.north - lat
  {
    if lat >= box.north then [] else TileRow(box, step, lat, box.west) + TileGrid(box, step, lat + step)
  }

  /** tiles */
  method Tiles(box: Box, step: nat) returns (output: seq<Box>)
    requires step > 0
    ensures output == TileGrid(box, step, box.south)
  {
    hide TileRow, TileGrid;
    output := [];
    var lat := box.south;
    assert output + TileGrid(box, step, lat) == TileGrid(box, step, box.south);
    while lat < box.north
      invariant output + TileGrid(box, step, lat) == TileGrid(box, step, box.south)
      decreases box.north - lat
    {
      var lng := box.west;
      ghost var before := output;
      assert output + TileRow(box, step, lat, lng) == before + TileRow(box, step, lat, box.west);
      while lng < box.east
        invariant output + TileRow(box, step, lat, lng) == before + TileRow(box, step, lat, box.west)
        decreases box.east - lng
      {
        Unfold(box, step, lat, lng);
        var tile := Box(lat, lng, Min(lat + step, box.north), Min(lng + step, box.east));
        assert output + TileRow(box, step, lat, lng) == output + [tile] + TileRow(box, step, lat, lng + step);
        output := output + [tile];
        lng := lng + step;
      }
      Unfold(box, step, lat, lng);
      assert output == before + TileRow(box, step, lat, box.west);
      assert before + TileGrid(box, step, lat) == output + TileGrid(box, step, lat + step);
      lat := lat + step;
    }
    Unfold(box, step, lat, box.west);
  }

  lemma Unfold(box: Box, step: nat, lat: int, lng: int)
    requires step > 0
    ensures TileRow(box, step, lat, lng) ==
            if lng >= box.east then []
            else
              var tile := Box(lat, lng, Min(lat + step, box.north), Min(lng + step, box.east));
              [tile] + TileRow(box, step, lat, lng + step)
    ensures TileGrid(box, step, lat) ==
            if lat >= box.north then [] else TileRow(box, step, lat, box.west) + TileGrid(box, step, lat + step)
  {
  }

  // What tilings guarantee

  predicate Within(tile: Box, box: Box)
  {
    box.south <= tile.south < tile.north <= box.north && box.west <= tile.west < tile.east <= box.east
  }

  lemma {:induction false} RowIsWithin(box: Box, step: nat, lat: int, lng: int)
    requires step > 0 && box.south <= lat < box.north && box.west <= lng
    ensures forall t :: t in TileRow(box, step, lat, lng) ==>
              Within(t, box) && t.south == lat && t.north == Min(lat + step, box.north) && t.west >= lng
    decreases box.east - lng
  {
    if lng < box.east {
      RowIsWithin(box, step, lat, lng + step);
    }
  }

  lemma {:induction false} GridIsWithin(box: Box, step: nat, lat: int)
    requires step > 0 && box.south <= lat
    ensures forall t :: t in TileGrid(box, step, lat) ==> Within(t, box) && t.south >= lat
    decreases box.north - lat
  {
    if lat < box.north {
      RowIsWithin(box, step, lat, box.west);
      GridIsWithin(box, step, lat + step);
    }
  }

  lemma {:induction false} RowCovers(box: Box, step: nat, lat: int, lng: int, x: real, y: real)
    requires step > 0 && lat as real <= x <= Min(lat + step, box.north) as real && lng as real <= y <= box.east as real
    requires lng < box.east
    ensures exists t :: t in TileRow(box, step, lat, lng) && Holds(t, x, y)
    decreases box.east - lng
  {
    var row := TileRow(box, step, lat, lng);
    if y <= (lng + step) as real {
      assert row[0] in row && Holds(row[0], x, y);
    } else {
      RowCovers(box, step, lat, lng + step, x, y);
      var t :| t in TileRow(box, step, lat, lng + step) && Holds(t, x, y);
      assert t in row;
    }
  }

  lemma {:induction false} GridCovers(box: Box, step: nat, lat: int, x: real, y: real)
    requires step > 0 && lat as real <= x <= box.north as real && box.west as real <= y <= box.east as real
    requires lat < box.north && box.west < box.east
    ensures exists t :: t in TileGrid(box, step, lat) && Holds(t, x, y)
    decreases box.north - lat
  {
    if x <= (lat + step) as real {
      RowCovers(box, step, lat, box.west, x, y);
      var t :| t in TileRow(box, step, lat, box.west) && Holds(t, x, y);
      assert t in TileGrid(box, step, lat);
    } else {
      GridCovers(box, step, lat + step, x, y);
      var t :| t in TileGrid(box, step, lat + step) && Holds(t, x, y);
      assert t in TileGrid(box, step, lat);
    }
  }

  /** The tiles hold exactly the points of the box. */
  lemma TilesCoverTheBox(box: Box, step: nat, lat: real, lng: real)
    requires step > 0 && IsBox(box)
    ensures Holds(box, lat, lng) <==> exists t :: t in TileGrid(box, step, box.south) && Holds(t, lat, lng)
  {
    GridIsWithin(box, step, box.south);
    if Holds(box, lat, lng) {
      GridCovers(box, step, box.south, lat, lng);
    }
  }

  predicate Apart(a: Box, b: Box)
  {
    a.east <= b.west || a.north <= b.south
  }

  predicate AllApart(tiles: seq<Box>)
  {
    forall i, j :: 0 <= i < j < |tiles| ==> Apart(tiles[i], tiles[j])
  }

  lemma {:induction false} RowIsApart(box: Box, step: nat, lat: int, lng: int)
    requires step > 0 && box.south <= lat < box.north && box.west <= lng
    ensures AllApart(TileRow(box, step, lat, lng))
    decreases box.east - lng
  {
    if lng < box.east {
      var row, rest := TileRow(box, step, lat, lng), TileRow(box, step, lat, lng + step);
      RowIsApart(box, step, lat, lng + step);
      RowIsWithin(box, step, lat, lng + step);
      forall i, j | 0 <= i < j < |row| ensures Apart(row[i], row[j]) {
        assert row[j] == rest[j - 1] && rest[j - 1] in rest && row[j].west >= lng + step;
        if i == 0 {
          assert row[0].east <= lng + step;
        } else {
          assert row[i] == rest[i - 1] && Apart(rest[i - 1], rest[j - 1]);
        }
      }
    }
  }

  lemma {:induction false} GridIsApart(box: Box, step: nat, lat: int)
    requires step > 0 && box.south <= lat
    ensures AllApart(TileGrid(box, step, lat))
    decreases box.north - lat
  {
    if lat < box.north {
      var row, rest := TileRow(box, step, lat, box.west), TileGrid(box, step, lat + step);
      var grid := TileGrid(box, step, lat);
      RowIsApart(box, step, lat, box.west);
      GridIsApart(box, step, lat + step);
      RowIsWithin(box, step, lat, box.west);
      GridIsWithin(box, step, lat + step);
      forall i, j | 0 <= i < j < |grid| ensures Apart(grid[i], grid[j]) {
        if j < |row| {
          assert grid[i] == row[i] && grid[j] == row[j] && Apart(row[i], row[j]);
        } else {
          assert grid[j] == rest[j - |row|] && rest[j - |row|] in rest && grid[j].south >= lat + step;
          if i < |row| {
            assert grid[i] == row[i] && row[i] in row && grid[i].north <= lat + step;
          } else {
            assert grid[i] == rest[i - |row|] && Apart(rest[i - |row|], rest[j - |row|]);
          }
        }
      }
    }
  }

  /** No point lies inside two tiles, so tiles are distinct too. */
  lemma TilesOverlapAtEdgesOnly(box: Box, step: nat, i: nat, j: nat, lat: real, lng: real)
    requires step > 0 && i < j < |TileGrid(box, step, box.south)|
    ensures var grid := TileGrid(box, step, box.south);
            grid[i] != grid[j] && !(HoldsInside(grid[i], lat, lng) && HoldsInside(grid[j], lat, lng))
  {
    var grid := TileGrid(box, step, box.south);
    GridIsApart(box, step, box.south);
    GridIsWithin(box, step, box.south);
    assert grid[i] in grid && Apart(grid[i], grid[j]);
  }
}
