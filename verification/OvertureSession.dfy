/**
 * Export sessions over the files they leave behind (packages/food-runtime/scripts/ops/
 * export-overture-tiles.py:164-184, 205-275): any number of sessions, each of which may stop after any page.
 */
module OvertureSession {
  import opened Wrappers
  import opened JsonGrammar
  import opened OvertureTiles
  import opened OvertureExport

  datatype Ending = Finished | Crashed | Refused

  /** `rowsById` is the dictionary form of `rows`. */
  predicate IsById(rowsById: map<Text, Row>, rows: set<Row>)
  {
    && (forall id :: id in rowsById ==> rowsById[id] in rows && rowsById[id].id == id)
    && (forall r :: r in rows ==> r.id in rowsById && rowsById[r.id] == r)
  }

  lemma ByIdStep(releases: Releases, release: string, rowsById: map<Text, Row>, rows: set<Row>, r: Row)
    requires Published(releases) && release in releases && IsById(rowsById, rows)
    requires r in releases[release] && forall q :: q in rows ==> q in releases[release]
    ensures IsById(rowsById[r.id := r], rows + {r})
  {
    IdsAreUnique(releases, release);
  }

  class Export {
    const releases: Releases
    const box: Box
    const step: nat
    const limit: nat
    var manifest: Option<Manifest>
    var archives: map<string, Manifest>
    var output: map<Text, Row>

    function Grid(): seq<Box>
      requires step > 0
    {
      TileGrid(box, step, box.south)
    }

    /** Every manifest on disk is a faithful prefix of its release, and archives are complete. */
    ghost predicate Valid()
      reads this
    {
      && step > 0 && limit > 0 && IsBox(box) && Published(releases)
      && (manifest.Some? ==> ManifestInv(releases, Grid(), manifest.value))
      && forall name :: name in archives ==>
           archives[name].release == name && ManifestInv(releases, Grid(), archives[name])
             && IsComplete(archives[name], Grid())
    }

    constructor (releases: Releases, box: Box, step: nat, limit: nat)
      requires step > 0 && limit > 0 && IsBox(box) && Published(releases)
      ensures Valid() && manifest == None && archives == map[]
      ensures this.releases == releases && this.box == box && this.step == step && this.limit == limit
    {
      this.releases, this.box, this.step, this.limit := releases, box, step, limit;
      manifest, archives, output := None, map[], map[];
    }

    /** select_manifest: an incomplete release stays pinned; a complete one is archived before it is replaced. */
    method SelectManifest(latest: string, all: seq<Box>) returns (selected: Option<Manifest>)
      requires Valid() && latest in releases && all == Grid()
      modifies this`archives
      ensures Valid()
      ensures forall name :: name in old(archives) ==> name in archives && archives[name] == old(archives[name])
      ensures selected.None? <==> Collides(manifest, old(archives), Grid(), latest)
      ensures selected.None? ==> archives == old(archives)
      ensures selected.Some? ==>
                selected.value == Started(manifest, Grid(), latest)
                && ManifestInv(releases, Grid(), selected.value)
      ensures selected.Some? && manifest.Some? && selected.value != manifest.value ==>
                manifest.value.release in archives && archives[manifest.value.release] == manifest.value
    {
      if manifest.None? { return Some(Manifest(latest, map[])); }
      var previous := manifest.value;
      if !IsComplete(previous, all) || previous.release == latest { return Some(previous); }
      if previous.release in archives {
        if archives[previous.release] != previous { return None; }
      } else {
        archives := archives[previous.release := previous];
      }
      selected := Some(Manifest(latest, map[]));
    }

    /** The rows already in a manifest. */
    method RowsById(m: Manifest) returns (rowsById: map<Text, Row>)
      requires Published(releases) && step > 0 && ManifestInv(releases, Grid(), m)
      ensures IsById(rowsById, AllRows(m))
    {
      hide IsById, Published;
      rowsById := map[];
      var todo := m.tiles.Keys;
      RowsAreReleased(releases, Grid(), m);
      NothingById();
      assert RowsOf(m, m.tiles.Keys - todo) == {};
      while todo != {}
        invariant todo <= m.tiles.Keys
        invariant IsById(rowsById, RowsOf(m, m.tiles.Keys - todo))
      {
        var tile :| tile in todo;
        ghost var before := m.tiles.Keys - todo;
        todo := todo - {tile};
        assert m.tiles.Keys - todo == before + {tile};
        RowsOfStep(m, before, tile);
        rowsById := AddRows(m.release, rowsById, m.tiles[tile].rows, RowsOf(m, before));
      }
      assert m.tiles.Keys - todo == m.tiles.Keys;
      assert RowsOf(m, m.tiles.Keys) == AllRows(m);
    }

    /**
     * One session: a page for each unfinished tile in order, up to `maxTiles`, with the manifest written after
     * every page. The process survives `survives` of those writes and may die before the next thing it writes,
     * so at `survives == 0` it dies with at most the archive written. The release stays pinned until complete.
     */
    method RunSession(latest: string, maxTiles: nat, survives: nat) returns (ending: Ending)
      requires Valid() && latest in releases && maxTiles > 0
      modifies this
      ensures Valid()
      ensures forall name :: name in old(archives) ==> name in archives && archives[name] == old(archives[name])
      ensures ending.Refused? <==> Collides(old(manifest), old(archives), Grid(), latest)
      ensures Leads(releases, Grid(), Session(latest, ending.Finished? || (ending.Crashed? && survives > 0)),
                    old(manifest), manifest)
      ensures ending.Refused? ==> archives == old(archives)
      ensures ending.Crashed? && survives == 0 ==> !Collides(manifest, archives, Grid(), latest)
      ensures !ending.Finished? ==> output == old(output)
      ensures ending.Finished? ==> IsById(output, AllRows(manifest.value))
    {
      hide PageStep, ManifestInv, Published, Work, IsById, TileGrid, IsDone, AllRows;
      var all := Tiles(box, step);
      var selected := SelectManifest(latest, all);
      if selected.None? { return Refused; }
      var m := selected.value;
      StartedIsValid(releases, Grid(), latest);
      ghost var start, archived := m, archives;
      var rowsById := RowsById(m);
      var processed := 0;
      var i := 0;
      while i < |all| && processed < maxTiles
        invariant i <= |all| && processed <= survives && Valid() && ManifestInv(releases, Grid(), m)
                  && m.release == start.release
        invariant archives == archived && output == old(output)
        invariant manifest == if processed == 0 then old(manifest) else Some(m)
        invariant IsById(rowsById, AllRows(m))
        invariant m.release in releases && start.release in releases
        invariant Work(releases, m, Grid()) + processed <= Work(releases, start, Grid())
        invariant processed == 0 ==> m == start && forall j :: 0 <= j < i ==> IsDone(m, all[j])
        decreases |all| - i
      {
        var tile := all[i];
        i := i + 1;
        if IsDone(m, tile) { continue; }
        assert tile in all;
        if processed == survives { return Crashed; }
        processed := processed + 1;
        PageStepKeepsInv(releases, Grid(), m, tile, limit);
        PagesMakeProgress(releases, Grid(), Grid(), m, tile, limit);
        PageAdds(releases, Grid(), m, tile, limit);
        ghost var before := m;
        var page := NextPage(releases, m, tile, limit);
        m := PageStep(releases, m, tile, limit);
        manifest := Some(m);
        rowsById := AddRows(m.release, rowsById, page, AllRows(before));
      }
      if processed == survives { return Crashed; }
      output := rowsById;
      manifest := Some(m);
      ending := Finished;
    }

    /** Rows of the release overwrite what has their id, which is the same row. */
    method AddRows(ghost release: string, rowsById: map<Text, Row>, rows: seq<Row>, ghost held: set<Row>)
      returns (more: map<Text, Row>)
      requires Published(releases) && release in releases && IsById(rowsById, held)
      requires forall r :: r in rows || r in held ==> r in releases[release]
      ensures IsById(more, held + SetOf(rows))
    {
      hide IsById, Published;
      more := rowsById;
      assert held + SetOf(rows[..0]) == held;
      for i := 0 to |rows|
        invariant IsById(more, held + SetOf(rows[..i]))
      {
        assert rows[..i + 1] == rows[..i] + [rows[i]];
        assert held + SetOf(rows[..i + 1]) == held + SetOf(rows[..i]) + {rows[i]};
        ByIdStep(releases, release, more, held + SetOf(rows[..i]), rows[i]);
        more := more[rows[i].id := rows[i]];
      }
      assert rows[..|rows|] == rows;
    }
  }

  function SetOf(rows: seq<Row>): set<Row>
  {
    set r | r in rows
  }

  /** The rows of some tiles. */
  function RowsOf(m: Manifest, tiles: set<Box>): set<Row>
  {
    set tile, r | tile in tiles && tile in m.tiles && r in m.tiles[tile].rows :: r
  }

  lemma RowsOfStep(m: Manifest, tiles: set<Box>, tile: Box)
    requires tile in m.tiles
    ensures RowsOf(m, tiles + {tile}) == RowsOf(m, tiles) + SetOf(m.tiles[tile].rows)
  {
    forall r ensures r in RowsOf(m, tiles + {tile}) <==> r in RowsOf(m, tiles) || r in m.tiles[tile].rows {
      if r in RowsOf(m, tiles + {tile}) {
        var t :| t in tiles + {tile} && t in m.tiles && r in m.tiles[t].rows;
      }
      if r in RowsOf(m, tiles) {
        var t :| t in tiles && t in m.tiles && r in m.tiles[t].rows;
        assert t in tiles + {tile};
      }
      if r in m.tiles[tile].rows {
        assert tile in tiles + {tile};
      }
    }
  }

  /** The manifest a session continues from. */
  function Started(manifest: Option<Manifest>, tiles: seq<Box>, latest: string): Manifest
  {
    if manifest.None? || (IsComplete(manifest.value, tiles) && manifest.value.release != latest) then
      Manifest(latest, map[])
    else manifest.value
  }

  function Pinned(manifest: Option<Manifest>, tiles: seq<Box>, latest: string): string
  {
    if manifest.Some? && !IsComplete(manifest.value, tiles) then manifest.value.release else latest
  }

  /** The archive of a complete, outdated manifest's release is there and different. */
  predicate Collides(manifest: Option<Manifest>, archives: map<string, Manifest>, tiles: seq<Box>, latest: string)
  {
    && manifest.Some? && IsComplete(manifest.value, tiles) && manifest.value.release != latest
    && manifest.value.release in archives && archives[manifest.value.release] != manifest.value
  }

  /** What a session that wrote a page leaves: the pinned release, with less work unless there was none. */
  predicate Advances(releases: Releases, tiles: seq<Box>, latest: string, before: Option<Manifest>, after: Manifest)
    requires latest in releases && (before.Some? ==> before.value.release in releases)
  {
    var start := Started(before, tiles, latest);
    && ManifestInv(releases, tiles, after) && after.release == Pinned(before, tiles, latest)
    && Work(releases, after, tiles) <= Work(releases, start, tiles)
    && (IsComplete(start, tiles) || Work(releases, after, tiles) < Work(releases, start, tiles))
  }

  lemma StartedIsValid(releases: Releases, tiles: seq<Box>, latest: string)
    requires latest in releases
    ensures ManifestInv(releases, tiles, Manifest(latest, map[]))
  {
  }

  // Any number of sessions

  /** A session as its files show it: the release it was offered, and whether it wrote a page. */
  datatype Session = Session(latest: string, wrote: bool)

  /** A refused session, or one that died before its first page, leaves the manifest alone. */
  predicate Leads(releases: Releases, tiles: seq<Box>, s: Session, before: Option<Manifest>, after: Option<Manifest>)
    requires before.Some? ==> before.value.release in releases
  {
    if s.wrote then s.latest in releases && after.Some? && Advances(releases, tiles, s.latest, before, after.value)
    else after == before
  }

  predicate ManifestOk(releases: Releases, tiles: seq<Box>, manifest: Option<Manifest>)
  {
    manifest.Some? ==> ManifestInv(releases, tiles, manifest.value)
  }

  /** The manifests between the sessions of a history, one more than there are sessions. */
  predicate IsHistory(releases: Releases, tiles: seq<Box>, manifests: seq<Option<Manifest>>, sessions: seq<Session>)
  {
    && |manifests| == |sessions| + 1
    && (forall i :: 0 <= i < |manifests| ==> ManifestOk(releases, tiles, manifests[i]))
    && forall i :: 0 <= i < |sessions| ==> Leads(releases, tiles, sessions[i], manifests[i], manifests[i + 1])
  }

  function Written(sessions: seq<Session>): nat
  {
    if sessions == [] then 0 else Written(sessions[..|sessions| - 1]) + if sessions[|sessions| - 1].wrote then 1 else 0
  }

  /** The export is over at some point of the history. */
  predicate Completes(tiles: seq<Box>, manifests: seq<Option<Manifest>>)
  {
    exists k :: 0 <= k < |manifests| && manifests[k].Some? && IsComplete(manifests[k].value, tiles)
  }

  /** `most` bounds the work of every release and of the manifest the history starts from. */
  predicate IsBound(releases: Releases, tiles: seq<Box>, start: Option<Manifest>, most: nat)
    requires ManifestOk(releases, tiles, start)
  {
    && (forall release :: release in releases ==> Work(releases, Manifest(release, map[]), tiles) <= most)
    && (start.Some? ==> Work(releases, start.value, tiles) <= most)
  }

  /** Where an export stands that is not over: nothing is written yet, or every page written lessened the work. */
  predicate IsUnderWay(releases: Releases, tiles: seq<Box>, manifest: Option<Manifest>, written: nat, most: nat)
    requires ManifestOk(releases, tiles, manifest)
  {
    if manifest.None? then written == 0 else Work(releases, manifest.value, tiles) + written <= most
  }

  lemma SessionLeadsOn(releases: Releases, tiles: seq<Box>, s: Session, before: Option<Manifest>,
                       after: Option<Manifest>,
                       start: Option<Manifest>, written: nat, most: nat)
    requires ManifestOk(releases, tiles, before) && ManifestOk(releases, tiles, after)
             && ManifestOk(releases, tiles, start)
    requires Leads(releases, tiles, s, before, after) && IsBound(releases, tiles, start, most)
    requires IsUnderWay(releases, tiles, before, written, most)
    requires before.Some? ==> !IsComplete(before.value, tiles)
    ensures IsUnderWay(releases, tiles, after, written + if s.wrote then 1 else 0, most)
           || (after.Some? && IsComplete(after.value, tiles))
  {
    hide Work, TileInv, InTile;
  }

  lemma {:induction false} SessionsProgress(
      releases: Releases, tiles: seq<Box>, manifests: seq<Option<Manifest>>, sessions: seq<Session>, most: nat)
    requires IsHistory(releases, tiles, manifests, sessions) && IsBound(releases, tiles, manifests[0], most)
    ensures Completes(tiles, manifests) || IsUnderWay(releases, tiles, manifests[|sessions|], Written(sessions), most)
  {
    hide Work, IsComplete, ManifestInv, Leads;
    if sessions != [] {
      var n := |sessions| - 1;
      SessionsProgress(releases, tiles, manifests[..n + 1], sessions[..n], most);
      if Completes(tiles, manifests[..n + 1]) {
        var k :| 0 <= k < n + 1 && manifests[..n + 1][k].Some? && IsComplete(manifests[..n + 1][k].value, tiles);
        assert manifests[k].Some? && IsComplete(manifests[k].value, tiles);
      } else {
        assert manifests[..n + 1][n] == manifests[n];
        assert manifests[n].Some? ==> !IsComplete(manifests[n].value, tiles);
        SessionLeadsOn(releases, tiles, sessions[n], manifests[n], manifests[n + 1], manifests[0],
                       Written(sessions[..n]), most);
        assert manifests[n + 1].Some? && IsComplete(manifests[n + 1].value, tiles) ==> Completes(tiles, manifests);
      }
    }
  }

  lemma {:induction false} NoWorkIsComplete(releases: Releases, m: Manifest, tiles: seq<Box>)
    requires m.release in releases && Work(releases, m, tiles) == 0
    ensures IsComplete(m, tiles)
  {
    if tiles != [] {
      NoWorkIsComplete(releases, m, tiles[..|tiles| - 1]);
      assert IsDone(m, tiles[|tiles| - 1]);
      forall i | 0 <= i < |tiles| ensures IsDone(m, tiles[i]) {
        assert i < |tiles| - 1 ==> tiles[..|tiles| - 1][i] == tiles[i];
      }
    }
  }

  /**
   * However sessions are refused or die, and whichever releases appear between them, the export completes
   * within as many sessions that write a page as there was work.
   */
  lemma SessionsComplete(
      releases: Releases, tiles: seq<Box>, manifests: seq<Option<Manifest>>, sessions: seq<Session>, most: nat)
    requires IsHistory(releases, tiles, manifests, sessions) && IsBound(releases, tiles, manifests[0], most)
    requires Written(sessions) > 0 && Written(sessions) >= most
    ensures Completes(tiles, manifests)
  {
    hide Work, IsBound, Written;
    SessionsProgress(releases, tiles, manifests, sessions, most);
    var last := manifests[|sessions|];
    if !Completes(tiles, manifests) {
      NoWorkIsComplete(releases, last.value, tiles);
    }
  }

  /** The rows a page adds. */
  function NextPage(releases: Releases, m: Manifest, tile: Box, limit: nat): seq<Row>
    requires m.release in releases
  {
    var previous := StateOf(m, tile);
    var page := Query(releases[m.release], tile, if previous.Some? then previous.value.afterId else None, limit + 1);
    if |page| <= limit then page else page[..limit]
  }

  lemma PageAdds(releases: Releases, tiles: seq<Box>, m: Manifest, tile: Box, limit: nat)
    requires Published(releases) && ManifestInv(releases, tiles, m) && tile in tiles && !IsDone(m, tile) && limit > 0
    ensures AllRows(PageStep(releases, m, tile, limit)) == AllRows(m) + SetOf(NextPage(releases, m, tile, limit))
    ensures m.release in releases
    ensures forall r :: r in NextPage(releases, m, tile, limit) || r in AllRows(m) ==> r in releases[m.release]
  {
    hide Query, TileInv, Published, InTile;
    var t, added := PageStep(releases, m, tile, limit), NextPage(releases, m, tile, limit);
    var kept := if tile in m.tiles then m.tiles[tile].rows else [];
    assert t.tiles[tile].rows == kept + added;
    forall r ensures r in AllRows(t) <==> r in AllRows(m) || r in added {
      assert r in t.tiles[tile].rows <==> r in kept || r in added;
      assert forall other :: other in m.tiles && other != tile ==> t.tiles[other] == m.tiles[other];
    }
    PageStepKeepsInv(releases, tiles, m, tile, limit);
    RowsAreReleased(releases, tiles, m);
    RowsAreReleased(releases, tiles, t);
    assert forall r :: r in added ==> r in t.tiles[tile].rows;
  }

  lemma NothingById()
    ensures IsById(map[], {})
  {
  }

  lemma RowsAreReleased(releases: Releases, tiles: seq<Box>, m: Manifest)
    requires ManifestInv(releases, tiles, m)
    ensures forall tile, r :: tile in m.tiles && r in m.tiles[tile].rows ==> r in releases[m.release]
  {
    forall tile, r | tile in m.tiles && r in m.tiles[tile].rows ensures r in releases[m.release] {
      InTileMembers(releases[m.release], tile);
      PrefixOfTile(InTile(releases[m.release], tile), m.tiles[tile], r);
    }
  }

  lemma PrefixOfTile(all: seq<Row>, s: TileState, r: Row)
    requires TileInv(all, s) && r in s.rows
    ensures r in all
  {
    var i :| 0 <= i < |s.rows| && s.rows[i] == r;
    assert all[i] == r;
  }

  /**
   * The output of a session that leaves a complete manifest: every row of the pinned release in the box, once by id.
   */
  lemma OutputIsTheBox(releases: Releases, box: Box, step: nat, m: Manifest, output: map<Text, Row>)
    requires step > 0 && IsBox(box) && Published(releases)
    requires ManifestInv(releases, TileGrid(box, step, box.south), m) && IsComplete(m, TileGrid(box, step, box.south))
    requires IsById(output, AllRows(m))
    ensures forall r :: r in releases[m.release] && Holds(box, r.lat, r.lng) ==> r.id in output && output[r.id] == r
    ensures forall id :: id in output ==>
              output[id].id == id && output[id] in releases[m.release] && Holds(box, output[id].lat, output[id].lng)
  {
    hide TileGrid, Published, Holds;
    CompleteManifestIsTheBox(releases, box, step, m);
  }
}
