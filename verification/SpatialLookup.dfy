/**
 * Grid lookup equals a plain scan (profiles/apizzamichigan/src/matching-v1.ts:527-566): the ten nearest
 * rows of the snapshot among those some padded tile box holds, by distance and then id.
 */
module SpatialLookup {
  import opened Wrappers
  import opened Sequences
  import opened SpatialIndex
  import Canonical
  import CanonicalProofs
  import Sorting

  // Sorting by distance and id

  function SortNearest(s: seq<Neighbour>): seq<Neighbour>
  {
    Sorting.Sort(Closer, s)
  }

  /** Neighbours of one snapshot: the id tells the place. */
  predicate OnePlacePerId(s: seq<Neighbour>)
  {
    forall i, j :: 0 <= i < |s| && 0 <= j < |s| && s[i].place.id == s[j].place.id ==> i == j
  }

  lemma CloserTotal(a: Neighbour, b: Neighbour)
    requires a.place.id != b.place.id
    ensures Closer(a, b) || Closer(b, a)
  {
    CanonicalProofs.LexTotal(a.place.id, b.place.id);
  }

  lemma CloserTransitive(a: Neighbour, b: Neighbour, c: Neighbour)
    requires Closer(a, b) && Closer(b, c)
    ensures Closer(a, c)
  {
    if a.distance == b.distance == c.distance {
      CanonicalProofs.LexTransitive(a.place.id, b.place.id, c.place.id);
    }
  }

  lemma NotCloserToItself(a: Neighbour)
    ensures !Closer(a, a)
  {
    CanonicalProofs.LexAsymmetric(a.place.id, a.place.id);
  }

  predicate Ranked(s: seq<Neighbour>)
  {
    forall i, j :: 0 <= i < j < |s| ==> Closer(s[i], s[j])
  }

  lemma CloserIsOrder()
    ensures Sorting.IsOrder(Closer)
  {
    forall a, b | Closer(a, b) ensures !Closer(b, a) {
      CanonicalProofs.LexAsymmetric(a.place.id, b.place.id);
    }
    forall a, b, c | Closer(a, c) ensures Closer(a, b) || Closer(b, c) {
      if a.place.id != b.place.id { CanonicalProofs.LexTotal(a.place.id, b.place.id); }
      if a.distance == b.distance == c.distance && !Closer(a, b) && a.place.id != b.place.id {
        CanonicalProofs.LexTransitive(b.place.id, a.place.id, c.place.id);
      }
    }
  }

  lemma SortRanks(s: seq<Neighbour>)
    requires OnePlacePerId(s)
    ensures Ranked(SortNearest(s))
    ensures forall m :: m in SortNearest(s) <==> m in s
  {
    hide Closer;
    var t := SortNearest(s);
    CloserIsOrder();
    Sorting.SortKeeps(Closer, s);
    forall m ensures m in t <==> m in s {
      assert (m in t <==> m in multiset(t)) && (m in s <==> m in multiset(s));
    }
    DistinctPermutes(s, t);
    StrictlySorted(s, t);
  }

  /** Without repeated places, sorted neighbours are strictly ranked. */
  lemma {:induction false} StrictlySorted(s: seq<Neighbour>, t: seq<Neighbour>)
    requires OnePlacePerId(s) && Distinct(t) && Sorting.Sorted(Closer, t) && forall m :: m in t ==> m in s
    ensures Ranked(t)
  {
    hide Closer;
    if t != [] {
      var rest, last := t[..|t| - 1], t[|t| - 1];
      StrictlySorted(s, rest);
      assert last in t;
      forall i | 0 <= i < |t| - 1 ensures Closer(t[i], last) {
        var prior := t[|t| - 2];
        assert prior in t && rest[|rest| - 1] == prior && rest[i] == t[i];
        CloserTotalIn(s, prior, last);
        if i < |t| - 2 {
          CloserTransitive(t[i], prior, last);
        }
      }
    }
  }

  lemma CloserTotalIn(s: seq<Neighbour>, a: Neighbour, b: Neighbour)
    requires OnePlacePerId(s) && a in s && b in s && a != b
    ensures Closer(a, b) || Closer(b, a)
  {
    CloserTotal(a, b);
  }

  /** A set of neighbours has one ranking only, so the result does not depend on the order of visits. */
  lemma {:induction false} RankingIsUnique(a: seq<Neighbour>, b: seq<Neighbour>)
    requires Ranked(a) && Ranked(b) && forall m :: m in a <==> m in b
    ensures a == b
  {
    if a == [] {
      if b != [] {
        HasMember(b);
      }
    } else {
      assert a[0] in b && b != [] && b[0] in a;
      assert a[0] == b[0] by { SameFirst(a, b); }
      forall m ensures m in a[1..] <==> m in b[1..] {
        TailMembers(a, m);
        TailMembers(b, m);
      }
      RankingIsUnique(a[1..], b[1..]);
      assert a == [a[0]] + a[1..] && b == [b[0]] + b[1..];
    }
  }

  lemma HasMember(s: seq<Neighbour>)
    requires s != []
    ensures exists m :: m in s
  {
    assert s[0] in s;
  }

  lemma SameFirst(a: seq<Neighbour>, b: seq<Neighbour>)
    requires Ranked(a) && Ranked(b) && a != [] && b != [] && a[0] in b && b[0] in a
    ensures a[0] == b[0]
  {
    if a[0] != b[0] {
      var i :| 0 <= i < |b| && b[i] == a[0];
      var j :| 0 <= j < |a| && a[j] == b[0];
      CloserTransitive(a[0], b[0], a[0]);
      NotCloserToItself(a[0]);
      assert false;
    }
  }

  lemma TailMembers(a: seq<Neighbour>, m: Neighbour)
    requires Ranked(a) && a != []
    ensures m in a[1..] <==> m in a && m != a[0]
  {
    if m in a[1..] {
      var k :| 1 <= k < |a| && a[k] == m;
      NotCloserToItself(m);
    }
    if m in a && m != a[0] {
      var k :| 0 <= k < |a| && a[k] == m;
      assert a[1..][k - 1] == m;
    }
  }

  // Collecting the cells around a point

  lemma {:induction false} CellRowsMembers(rows: seq<Place>, cell: Cell, r: Place)
    ensures r in CellRows(rows, cell) <==> r in rows && GridCell(r.at) == cell
  {
    if rows != [] {
      CellRowsMembers(rows[..|rows| - 1], cell, r);
      assert rows == rows[..|rows| - 1] + [rows[|rows| - 1]];
    }
  }

  lemma {:induction false} CellRowsIncrease(rows: seq<Place>, cell: Cell)
    requires IdsIncrease(rows)
    ensures IdsIncrease(CellRows(rows, cell))
  {
    if rows != [] {
      var rest, last := rows[..|rows| - 1], rows[|rows| - 1];
      CellRowsIncrease(rest, cell);
      var kept := CellRows(rest, cell);
      forall i | 0 <= i < |kept| ensures Canonical.LexBefore(kept[i].id, last.id) {
        CellRowsMembers(rest, cell, kept[i]);
        assert kept[i] in rest;
      }
    }
  }

  /** `found` lists, each once, the neighbours of `p` in the visited cells. */
  ghost predicate Collected(geo: Geo, p: Point, rows: seq<Place>, visited: set<Cell>, found: seq<Neighbour>)
  {
    && OnePlacePerId(found)
    && forall n :: n in found <==>
         n.place in rows && GridCell(n.place.at) in visited && n == NeighbourOf(geo, p, n.place)
           && n.distance <= MAX_DISTANCE
  }

  /** Rows of one cell within the limit, appended. */
  method CollectCell(geo: Geo, p: Point, places: seq<Place>, found: seq<Neighbour>) returns (more: seq<Neighbour>)
    requires IdsIncrease(places) && OnePlacePerId(found)
    requires forall n, r :: n in found && r in places ==> n.place.id != r.id
    ensures OnePlacePerId(more)
    ensures forall n :: n in more <==> n in found || (n.place in places && n == NeighbourOf(geo, p, n.place)
                                                      && n.distance <= MAX_DISTANCE)
  {
    more := found;
    for i := 0 to |places|
      invariant OnePlacePerId(more)
      invariant forall n :: n in more <==>
                  n in found || (n.place in places[..i] && n == NeighbourOf(geo, p, n.place)
                                 && n.distance <= MAX_DISTANCE)
    {
      assert places[..i + 1] == places[..i] + [places[i]];
      var distance := geo.distance(p, places[i].at);
      if distance <= MAX_DISTANCE {
        FreshId(places, found, more, i);
        AddedPlace(more, Neighbour(places[i], distance));
        more := more + [Neighbour(places[i], distance)];
      }
    }
    assert places[..|places|] == places;
  }

  lemma FreshId(places: seq<Place>, found: seq<Neighbour>, more: seq<Neighbour>, i: nat)
    requires i < |places| && IdsIncrease(places)
    requires forall n, r :: n in found && r in places ==> n.place.id != r.id
    requires forall n :: n in more ==> n in found || n.place in places[..i]
    ensures forall n :: n in more ==> n.place.id != places[i].id
  {
    forall n | n in more ensures n.place.id != places[i].id {
      if n !in found {
        var j :| 0 <= j < i && places[j] == n.place;
        CanonicalProofs.LexAsymmetric(places[i].id, places[i].id);
      }
    }
  }

  lemma AddedPlace(s: seq<Neighbour>, n: Neighbour)
    requires OnePlacePerId(s) && forall m :: m in s ==> m.place.id != n.place.id
    ensures OnePlacePerId(s + [n])
  {
  }

  /** The cells of the square around `own` that the loops have visited before offset (i, j). */
  ghost predicate IsVisited(own: Cell, i: int, j: int, cell: Cell)
  {
    && -CELL_RADIUS <= cell.0 - own.0 <= CELL_RADIUS && -CELL_RADIUS <= cell.1 - own.1 <= CELL_RADIUS
    && (cell.0 - own.0 < i || (cell.0 - own.0 == i && cell.1 - own.1 < j))
  }

  ghost function Visited(own: Cell, i: int, j: int): set<Cell>
  {
    set x, y | -CELL_RADIUS <= x - own.0 <= CELL_RADIUS && -CELL_RADIUS <= y - own.1 <= CELL_RADIUS
      && IsVisited(own, i, j, (x, y)) :: (x, y)
  }

  lemma VisitedCells(own: Cell, i: int, j: int)
    ensures forall cell :: cell in Visited(own, i, j) <==> IsVisited(own, i, j, cell)
  {
    forall cell: Cell ensures cell in Visited(own, i, j) <==> IsVisited(own, i, j, cell) {
      assert cell == (cell.0, cell.1);
    }
  }

  lemma NextCell(own: Cell, i: int, j: int)
    requires -CELL_RADIUS <= i <= CELL_RADIUS && -CELL_RADIUS <= j <= CELL_RADIUS
    ensures (own.0 + i, own.1 + j) !in Visited(own, i, j)
    ensures Visited(own, i, j + 1) == Visited(own, i, j) + {(own.0 + i, own.1 + j)}
  {
    VisitedCells(own, i, j);
    VisitedCells(own, i, j + 1);
    var cell := (own.0 + i, own.1 + j);
    assert forall c: Cell :: c == cell <==> c.0 - own.0 == i && c.1 - own.1 == j;
  }

  lemma NextRow(own: Cell, i: int)
    ensures Visited(own, i, CELL_RADIUS + 1) == Visited(own, i + 1, -CELL_RADIUS)
  {
    VisitedCells(own, i, CELL_RADIUS + 1);
    VisitedCells(own, i + 1, -CELL_RADIUS);
  }

  /** `near` are the first ten, by distance and id, of the rows within the limit. */
  ghost predicate AreTenNearest(near: seq<Neighbour>, geo: Geo, p: Point, rows: set<Place>)
  {
    exists s :: IsRanking(s, Within(geo, p, rows)) && near == FirstTen(s)
  }

  lemma TenNearestAreUnique(a: seq<Neighbour>, b: seq<Neighbour>, geo: Geo, p: Point, rows: set<Place>)
    requires AreTenNearest(a, geo, p, rows) && AreTenNearest(b, geo, p, rows)
    ensures a == b
  {
    var s :| IsRanking(s, Within(geo, p, rows)) && a == FirstTen(s);
    var t :| IsRanking(t, Within(geo, p, rows)) && b == FirstTen(t);
    RankingIsUnique(s, t);
  }

  /** nearbyPlaces: 25 cells around the point, then the ten closest. */
  method NearbyPlaces(geo: Geo, grid: map<Cell, seq<Place>>, p: Point, ghost rows: seq<Place>)
    returns (near: seq<Neighbour>)
    requires IsGrid(grid, rows) && IdsIncrease(rows) && Bounds(geo, p) && forall r :: r in rows ==> IsCoordinate(r.at)
    ensures AreTenNearest(near, geo, p, set r | r in rows)
  {
    hide IsGrid, Collected, IdsIncrease, Visited, Bounds, CellRows, GridCell, IsCoordinate;
    var own := GridCell(p);
    var found: seq<Neighbour> := [];
    NothingCollected(geo, p, rows, own);
    for i := -CELL_RADIUS to CELL_RADIUS + 1
      invariant Collected(geo, p, rows, Visited(own, i, -CELL_RADIUS), found)
    {
      for j := -CELL_RADIUS to CELL_RADIUS + 1
        invariant Collected(geo, p, rows, Visited(own, i, j), found)
      {
        var cell := (own.0 + i, own.1 + j);
        var places := if cell in grid then grid[cell] else [];
        NextCell(own, i, j);
        CellToCollect(geo, grid, rows, p, Visited(own, i, j), cell, found);
        ghost var before := found;
        found := CollectCell(geo, p, places, found);
        CellCollected(geo, grid, rows, p, Visited(own, i, j), cell, before, found);
      }
      NextRow(own, i);
    }
    near := FirstTen(SortNearest(found));
    AllCollected(geo, p, rows, found);
  }

  lemma NothingCollected(geo: Geo, p: Point, rows: seq<Place>, own: Cell)
    ensures Collected(geo, p, rows, Visited(own, -CELL_RADIUS, -CELL_RADIUS), [])
  {
    VisitedCells(own, -CELL_RADIUS, -CELL_RADIUS);
    assert Visited(own, -CELL_RADIUS, -CELL_RADIUS) == {};
  }

  lemma GridRows(grid: map<Cell, seq<Place>>, rows: seq<Place>, cell: Cell)
    requires IsGrid(grid, rows) && IdsIncrease(rows)
    ensures var places := if cell in grid then grid[cell] else [];
            && IdsIncrease(places)
            && forall r :: r in places <==> r in rows && GridCell(r.at) == cell
  {
    hide GridCell;
    if cell in grid {
      CellRowsIncrease(rows, cell);
      forall r ensures r in grid[cell] <==> r in rows && GridCell(r.at) == cell {
        CellRowsMembers(rows, cell, r);
      }
    }
  }

  lemma OneIdInRows(rows: seq<Place>, a: Place, b: Place)
    requires IdsIncrease(rows) && a in rows && b in rows && a.id == b.id
    ensures a == b
  {
    CanonicalProofs.LexAsymmetric(a.id, a.id);
  }

  lemma CellToCollect(geo: Geo, grid: map<Cell, seq<Place>>, rows: seq<Place>, p: Point, visited: set<Cell>, cell: Cell,
                      found: seq<Neighbour>)
    requires IsGrid(grid, rows) && IdsIncrease(rows) && Collected(geo, p, rows, visited, found) && cell !in visited
    ensures var places := if cell in grid then grid[cell] else [];
            && IdsIncrease(places) && OnePlacePerId(found)
            && forall n, r :: n in found && r in places ==> n.place.id != r.id
  {
    hide GridCell, IsGrid, OnePlacePerId;
    var places := if cell in grid then grid[cell] else [];
    GridRows(grid, rows, cell);
    forall n, r | n in found && r in places ensures n.place.id != r.id {
      if n.place.id == r.id {
        OneIdInRows(rows, n.place, r);
        assert false;
      }
    }
  }

  lemma CellCollected(geo: Geo, grid: map<Cell, seq<Place>>, rows: seq<Place>, p: Point, visited: set<Cell>, cell: Cell,
                      before: seq<Neighbour>, after: seq<Neighbour>)
    requires IsGrid(grid, rows) && IdsIncrease(rows) && Collected(geo, p, rows, visited, before)
    requires var places := if cell in grid then grid[cell] else [];
             && OnePlacePerId(after)
             && forall n :: n in after <==>
                  n in before || (n.place in places && n == NeighbourOf(geo, p, n.place) && n.distance <= MAX_DISTANCE)
    ensures Collected(geo, p, rows, visited + {cell}, after)
  {
    hide GridCell, IsGrid, OnePlacePerId, IdsIncrease;
    GridRows(grid, rows, cell);
  }

  lemma AllCollected(geo: Geo, p: Point, rows: seq<Place>, found: seq<Neighbour>)
    requires Bounds(geo, p) && forall r :: r in rows ==> IsCoordinate(r.at)
    requires Collected(geo, p, rows, Visited(GridCell(p), CELL_RADIUS + 1, -CELL_RADIUS), found)
    ensures IsRanking(SortNearest(found), Within(geo, p, set r | r in rows))
  {
    SortRanks(found);
    VisitedCells(GridCell(p), CELL_RADIUS + 1, -CELL_RADIUS);
    hide GridCell, Visited, Bounds, OnePlacePerId, IsCoordinate;
    forall n ensures n in Within(geo, p, set r | r in rows) <==> n in found {
      if n in Within(geo, p, set r | r in rows) {
        WithinTwoCells(geo, p, n.place.at);
      }
    }
  }

  lemma {:induction false} ScanMembers(geo: Geo, points: seq<Point>, rows: seq<Place>)
    ensures forall r :: r in BoxScan(geo, points, rows) <==> r in rows && InSomeBox(geo, points, r.at)
  {
    hide InSomeBox;
    if rows != [] {
      ScanMembers(geo, points, rows[..|rows| - 1]);
      assert rows == rows[..|rows| - 1] + [rows[|rows| - 1]];
    }
  }

  lemma {:induction false} ScanIncreases(geo: Geo, points: seq<Point>, rows: seq<Place>)
    requires IdsIncrease(rows)
    ensures IdsIncrease(BoxScan(geo, points, rows))
  {
    hide InSomeBox;
    if rows != [] {
      var rest, last := rows[..|rows| - 1], rows[|rows| - 1];
      ScanIncreases(geo, points, rest);
      ScanMembers(geo, points, rest);
      var kept := BoxScan(geo, points, rest);
      forall i | 0 <= i < |kept| ensures Canonical.LexBefore(kept[i].id, last.id) {
        assert kept[i] in rest;
      }
    }
  }

  /**
   * Looking a point up in the grid over the prefetched rows is a plain scan of the whole snapshot for the
   * rows that the padded box of some tile holds.
   */
  lemma PrefetchedLookupIsScan(near: seq<Neighbour>, geo: Geo, p: Point, points: seq<Point>, snapshot: seq<Place>)
    requires AreTenNearest(near, geo, p, set r | r in BoxScan(geo, points, snapshot))
    ensures AreTenNearest(near, geo, p, set r | r in snapshot && InSomeBox(geo, points, r.at))
  {
    hide AreTenNearest, InSomeBox;
    ScanMembers(geo, points, snapshot);
    assert (set r | r in BoxScan(geo, points, snapshot)) == set r | r in snapshot && InSomeBox(geo, points, r.at);
  }
}
