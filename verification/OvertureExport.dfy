/**
 * The resumable export of one release over all tiles (packages/food-runtime/scripts/ops/
 * export-overture-tiles.py:131-149, 164-195, 230-275): keyset pages of limit plus one, a manifest written
 * after every page, and a release pinned until it is complete.
 */
module OvertureExport {
  import opened Wrappers
  import opened Sequences
  import opened JsonGrammar
  import opened Keyset
  import opened OvertureTiles
  import Canonical
  import CanonicalProofs

  datatype Row = Row(id: Text, lat: real, lng: real)

  datatype Status = Partial | Success

  datatype TileState = TileState(status: Status, afterId: Option<Text>, rows: seq<Row>)

  datatype Manifest = Manifest(release: string, tiles: map<Box, TileState>)

  /** What is on disk; `releases` is the published data, rows in id order, each id once. */
  datatype Disk = Disk(manifest: Option<Manifest>, archives: map<string, Manifest>)

  type Releases = map<string, seq<Row>>

  function IdOf(r: Row): Text
  {
    r.id
  }

  predicate Published(releases: Releases)
  {
    forall name :: name in releases ==>
      Increasing(releases[name], IdOf) && forall r :: r in releases[name] ==> r.id != []
  }

  // The query and one page

  function InTile(rows: seq<Row>, tile: Box): seq<Row>
  {
    Filter((r: Row) => Holds(tile, r.lat, r.lng), rows)
  }

  lemma {:induction false} InTileMembers(rows: seq<Row>, tile: Box)
    ensures forall r :: r in InTile(rows, tile) <==> r in rows && Holds(tile, r.lat, r.lng)
  {
    if rows != [] {
      InTileMembers(rows[..|rows| - 1], tile);
      assert rows == rows[..|rows| - 1] + [rows[|rows| - 1]];
    }
  }

  lemma {:induction false} InTileIncreases(rows: seq<Row>, tile: Box)
    requires Increasing(rows, IdOf)
    ensures Increasing(InTile(rows, tile), IdOf)
  {
    if rows != [] {
      var rest, last := rows[..|rows| - 1], rows[|rows| - 1];
      InTileIncreases(rest, tile);
      InTileMembers(rest, tile);
      var kept := InTile(rest, tile);
      forall i | 0 <= i < |kept| ensures Canonical.LexBefore(IdOf(kept[i]), IdOf(last)) {
        assert kept[i] in rest;
      }
    }
  }

  /** export_tile: rows of the release in the tile after the cursor, in id order. */
  function Query(rows: seq<Row>, tile: Box, after: Option<Text>, limit: nat): seq<Row>
  {
    Page(InTile(rows, tile), IdOf, after, limit)
  }

  /** tile_page */
  function TilePage(previous: Option<TileState>, page: seq<Row>, limit: nat): TileState
  {
    var rows := if |page| <= limit then page else page[..limit];
    TileState(
      if |page| > limit then Partial else Success,
      if rows != [] then Some(rows[|rows| - 1].id) else if previous.Some? then previous.value.afterId else None,
      (if previous.Some? then previous.value.rows else []) + rows)
  }

  // Progress of a tile

  /** The rows so far are the first rows of the tile, and the tile is a success once they are all of them. */
  predicate TileInv(all: seq<Row>, s: TileState)
  {
    && |s.rows| <= |all| && s.rows == all[..|s.rows|]
    && s.afterId == (if s.rows == [] then None else Some(s.rows[|s.rows| - 1].id))
    && (s.status.Success? <==> |s.rows| == |all|)
  }

  predicate IsDone(m: Manifest, tile: Box)
  {
    tile in m.tiles && m.tiles[tile].status.Success?
  }

  predicate IsComplete(m: Manifest, tiles: seq<Box>)
  {
    forall i :: 0 <= i < |tiles| ==> IsDone(m, tiles[i])
  }

  predicate ManifestInv(releases: Releases, tiles: seq<Box>, m: Manifest)
  {
    && m.release in releases
    && forall tile :: tile in m.tiles ==> tile in tiles && TileInv(InTile(releases[m.release], tile), m.tiles[tile])
  }

  function StateOf(m: Manifest, tile: Box): Option<TileState>
  {
    if tile in m.tiles then Some(m.tiles[tile]) else None
  }

  /** One pass of the loop body over an unfinished tile. */
  function PageStep(releases: Releases, m: Manifest, tile: Box, limit: nat): Manifest
    requires m.release in releases
  {
    var previous := StateOf(m, tile);
    var page := Query(releases[m.release], tile, if previous.Some? then previous.value.afterId else None, limit + 1);
    m.(tiles := m.tiles[tile := TilePage(previous, page, limit)])
  }

  /** Pages a tile still needs, at most, counting one for an unfinished tile without rows. */
  function TileWork(releases: Releases, m: Manifest, tile: Box): nat
    requires m.release in releases
  {
    if IsDone(m, tile) then 0
    else
      var all := |InTile(releases[m.release], tile)|;
      var got := if tile in m.tiles then |m.tiles[tile].rows| else 0;
      if got <= all then all - got + 1 else 1
  }

  function Work(releases: Releases, m: Manifest, tiles: seq<Box>): nat
    requires m.release in releases
  {
    if tiles == [] then 0 else Work(releases, m, tiles[..|tiles| - 1]) + TileWork(releases, m, tiles[|tiles| - 1])
  }

  lemma TileStep(rows: seq<Row>, tile: Box, previous: Option<TileState>, limit: nat)
    requires Increasing(rows, IdOf) && limit > 0
    requires previous.Some? ==> TileInv(InTile(rows, tile), previous.value) && previous.value.status.Partial?
    ensures var s := TilePage(previous, Query(rows, tile, if previous.Some? then previous.value.afterId
                                              else None, limit + 1), limit);
            && TileInv(InTile(rows, tile), s)
            && (s.status.Success? || |s.rows| > if previous.Some? then |previous.value.rows| else 0)
  {
    InTileIncreases(rows, tile);
    hide InTile, Page, TileInv, TilePage, Increasing;
    var all := InTile(rows, tile);
    var k := if previous.Some? then |previous.value.rows| else 0;
    if previous.Some? { TileStands(all, previous.value); }
    PageIsSlice(all, IdOf, k, limit + 1);
    TileGrows(all, previous, limit);
  }

  lemma TileStands(all: seq<Row>, s: TileState)
    requires TileInv(all, s) && s.status.Partial?
    ensures |s.rows| < |all|
    ensures s.afterId == if s.rows == [] then None else Some(IdOf(all[|s.rows| - 1]))
  {
  }

  /** The next rows of a tile, however many there are, make a longer prefix of it. */
  lemma TileGrows(all: seq<Row>, previous: Option<TileState>, limit: nat)
    requires previous.Some? ==> TileInv(all, previous.value) && previous.value.status.Partial?
    requires limit > 0
    ensures var k := if previous.Some? then |previous.value.rows| else 0;
            k <= |all|
            && var s := TilePage(previous, all[k..if k + (limit + 1) < |all| then k + (limit + 1) else |all|], limit);
               TileInv(all, s) && (s.status.Success? || |s.rows| > k)
  {
    var k := if previous.Some? then |previous.value.rows| else 0;
    SliceStep(all, k, limit);
    assert all[..0] == [];
  }

  /** Taking `limit` of the next `limit + 1` rows extends the prefix, and the extra row tells whether more remain. */
  lemma SliceStep(all: seq<Row>, k: nat, limit: nat)
    requires k <= |all| && limit > 0
    ensures var page := all[k..if k + (limit + 1) < |all| then k + (limit + 1) else |all|];
            var rows := if |page| <= limit then page else page[..limit];
            && all[..k] + rows == all[..k + |rows|]
            && (|page| > limit <==> k + limit < |all|) && (|page| > limit ==> |rows| == limit)
            && (|page| <= limit ==> k + |rows| == |all|)
  {
  }

  lemma PageStepKeepsInv(releases: Releases, tiles: seq<Box>, m: Manifest, tile: Box, limit: nat)
    requires Published(releases) && ManifestInv(releases, tiles, m) && tile in tiles && !IsDone(m, tile) && limit > 0
    ensures ManifestInv(releases, tiles, PageStep(releases, m, tile, limit))
    ensures TileWork(releases, PageStep(releases, m, tile, limit), tile) < TileWork(releases, m, tile)
    ensures PageStep(releases, m, tile, limit).release == m.release
  {
    hide TileInv, Query, TilePage, InTile;
    TileStep(releases[m.release], tile, StateOf(m, tile), limit);
    if tile in m.tiles { TileBounds(InTile(releases[m.release], tile), m.tiles[tile]); }
    var t := PageStep(releases, m, tile, limit);
    TileBounds(InTile(releases[m.release], tile), t.tiles[tile]);
  }

  lemma TileBounds(all: seq<Row>, s: TileState)
    requires TileInv(all, s)
    ensures |s.rows| <= |all|
  {
  }

  /** Each page brings the export strictly closer to completion, so it ends after `Work` pages at most. */
  lemma {:induction false} PagesMakeProgress(releases: Releases, tiles: seq<Box>, some: seq<Box>, m: Manifest,
                                             tile: Box, limit: nat)
    requires Published(releases) && ManifestInv(releases, tiles, m) && tile in tiles && !IsDone(m, tile) && limit > 0
    ensures var t := PageStep(releases, m, tile, limit);
            && Work(releases, t, some) <= Work(releases, m, some)
            && (tile in some ==> Work(releases, t, some) < Work(releases, m, some))
  {
    hide PageStep, TileWork, Published, TileInv;
    PageStepKeepsInv(releases, tiles, m, tile, limit);
    if some != [] {
      var rest, last := some[..|some| - 1], some[|some| - 1];
      PagesMakeProgress(releases, tiles, rest, m, tile, limit);
      assert some == rest + [last];
      if last != tile {
        OtherTileStays(releases, m, tile, last, limit);
      }
    }
  }

  lemma OtherTileStays(releases: Releases, m: Manifest, tile: Box, other: Box, limit: nat)
    requires m.release in releases && other != tile
    ensures TileWork(releases, PageStep(releases, m, tile, limit), other) == TileWork(releases, m, other)
  {
    hide Query, TilePage, InTile;
  }

  // What a complete manifest holds

  function AllRows(m: Manifest): set<Row>
  {
    set tile, r | tile in m.tiles && r in m.tiles[tile].rows :: r
  }

  /**
   * When every tile is a success the manifest holds exactly the rows of the pinned release inside the box,
   * although rows on shared edges were fetched by several tiles.
   */
  lemma CompleteManifestIsTheBox(releases: Releases, box: Box, step: nat, m: Manifest)
    requires step > 0 && IsBox(box) && Published(releases)
    requires ManifestInv(releases, TileGrid(box, step, box.south), m) && IsComplete(m, TileGrid(box, step, box.south))
    ensures forall r :: r in AllRows(m) <==> r in releases[m.release] && Holds(box, r.lat, r.lng)
    ensures forall r, q :: r in AllRows(m) && q in AllRows(m) && r.id == q.id ==> r == q
  {
    hide TileGrid, Published, InTile, Holds;
    var grid, rows := TileGrid(box, step, box.south), releases[m.release];
    forall r ensures r in AllRows(m) <==> r in rows && Holds(box, r.lat, r.lng) {
      TilesCoverTheBox(box, step, r.lat, r.lng);
      forall tile | tile in m.tiles ensures r in m.tiles[tile].rows <==> r in rows && Holds(tile, r.lat, r.lng) {
        InTileMembers(rows, tile);
        DoneTileHasAll(InTile(rows, tile), m.tiles[tile], grid, m, tile);
      }
      assert forall tile :: tile in grid ==> tile in m.tiles;
    }
    IdsAreUnique(releases, m.release);
  }

  lemma DoneTileHasAll(all: seq<Row>, s: TileState, grid: seq<Box>, m: Manifest, tile: Box)
    requires TileInv(all, s) && tile in grid && IsComplete(m, grid) && tile in m.tiles && m.tiles[tile] == s
    ensures s.rows == all
  {
    var i :| 0 <= i < |grid| && grid[i] == tile;
    assert IsDone(m, grid[i]);
    assert all[..|all|] == all;
  }

  lemma IdsAreUnique(releases: Releases, release: string)
    requires Published(releases) && release in releases
    ensures forall r, q :: r in releases[release] && q in releases[release] && r.id == q.id ==> r == q
  {
    hide Canonical.LexBefore;
    var rows := releases[release];
    forall r, q | r in rows && q in rows && r.id == q.id ensures r == q {
      var i :| 0 <= i < |rows| && rows[i] == r;
      var j :| 0 <= j < |rows| && rows[j] == q;
      CanonicalProofs.LexAsymmetric(r.id, r.id);
      assert IdOf(rows[i]) == IdOf(rows[j]);
    }
  }
}
