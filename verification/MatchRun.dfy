/**
 * The matcher as a whole and its report (profiles/apizzamichigan/src/matching-v1.ts:620-720, 863-937):
 * for accepted inputs every decision list and report it produces passes both validators.
 */
module MatchRun {
  import opened Wrappers
  import opened JsonGrammar
  import opened IdentityOrder
  import opened SpatialIndex
  import opened SpatialLookup
  import opened Matcher
  import Canonical
  import CanonicalProofs

  const PREFETCH_BATCH := 100

  datatype Report = Report(
    routeCounts: map<Route, nat>,
    candidateRows: nat, activeCompared: nat, closedCompared: nat,
    snapshotRows: nat, prefetchedRows: nat, tiles: nat, queries: nat, gridCells: nat,
    matched: nat, ambiguous: nat, likelyNew: nat, closedMatched: nat, withSourceId: nat, closedDropped: nat,
    decisionRows: nat)

  function AllRoutes(): set<Route>
  {
    {Ready, ClosedEvidence, NonPizza, Unusable, OutOfScope}
  }

  lemma EveryRoute(route: Route)
    ensures route in AllRoutes()
  {
    match route
    case Ready =>
    case ClosedEvidence =>
    case NonPizza =>
    case Unusable =>
    case OutOfScope =>
  }

  function CeilingOf(tiles: nat): nat
  {
    (tiles + PREFETCH_BATCH - 1) / PREFETCH_BATCH
  }

  // Counting

  function CountRoute(s: seq<Candidate>, route: Route): nat
  {
    if s == [] then 0 else CountRoute(s[..|s| - 1], route) + if s[|s| - 1].route == route then 1 else 0
  }

  function CountDecided(s: seq<Decision>, route: Route): nat
  {
    if s == [] then 0 else CountDecided(s[..|s| - 1], route) + if s[|s| - 1].route == route then 1 else 0
  }

  function CountDisposed(s: seq<Decision>, disposition: Disposition): nat
  {
    if s == [] then 0 else CountDisposed(s[..|s| - 1], disposition) + if s[|s| - 1].disposition == disposition then 1
    else 0
  }

  function CountWithSource(s: seq<Decision>): nat
  {
    if s == [] then 0
    else CountWithSource(s[..|s| - 1]) +
         if s[|s| - 1].route.Ready? && s[|s| - 1].disposition.Matched? && s[|s| - 1].stableSource then 1 else 0
  }

  /** Dispositions partition the decided candidates, route by route. */
  lemma {:induction false} DispositionsPartition(s: seq<Decision>)
    requires forall d :: d in s ==> DecisionOk(d)
    ensures CountDisposed(s, Matched) + CountDisposed(s, Ambiguous) + CountDisposed(s, LikelyNew) ==
            CountDecided(s, Ready)
    ensures CountDisposed(s, Closed) + CountDisposed(s, ClosedDropped) == CountDecided(s, ClosedEvidence)
    ensures CountWithSource(s) <= CountDisposed(s, Matched)
  {
    if s != [] {
      hide IsTagged, EvaluatedOk, MethodFor;
      DispositionsPartition(s[..|s| - 1]);
      assert s[|s| - 1] in s && DecisionOk(s[|s| - 1]);
    }
  }

  lemma {:induction false} RoutesPartition(s: seq<Candidate>)
    ensures CountRoute(s, Ready) + CountRoute(s, ClosedEvidence) + CountRoute(s, NonPizza) + CountRoute(s, Unusable)
            + CountRoute(s, OutOfScope) == |s|
  {
    if s != [] {
      RoutesPartition(s[..|s| - 1]);
    }
  }

  lemma {:induction false} DecidedAsRouted(cs: seq<Candidate>, ds: seq<Decision>, route: Route)
    requires |cs| == |ds| && forall i :: 0 <= i < |cs| ==> ds[i].route == cs[i].route
    ensures CountDecided(ds, route) == CountRoute(cs, route)
  {
    if cs != [] {
      DecidedAsRouted(cs[..|cs| - 1], ds[..|ds| - 1], route);
    }
  }

  // The report validator

  /** The reconciliation of all counts; `validateMatchReport` beyond its field shapes. */
  predicate ReportOk(r: Report)
  {
    && r.routeCounts.Keys == AllRoutes()
    && r.routeCounts[Ready] + r.routeCounts[ClosedEvidence] + r.routeCounts[NonPizza] + r.routeCounts[Unusable]
       + r.routeCounts[OutOfScope] == r.candidateRows
    && r.activeCompared == r.routeCounts[Ready] && r.closedCompared == r.routeCounts[ClosedEvidence]
    && r.activeCompared + r.closedCompared + r.routeCounts[NonPizza] + r.routeCounts[Unusable]
       + r.routeCounts[OutOfScope] == r.decisionRows
    && r.decisionRows == r.candidateRows
    && r.matched + r.ambiguous + r.likelyNew == r.activeCompared
    && r.closedMatched + r.closedDropped == r.closedCompared
    && r.withSourceId <= r.matched
    && r.prefetchedRows <= r.snapshotRows
    && r.gridCells <= r.prefetchedRows
    && r.tiles <= r.activeCompared + r.closedCompared
    && (r.tiles == 0 <==> r.activeCompared + r.closedCompared == 0)
    && (r.tiles == 0 ==> r.prefetchedRows == 0)
    && (r.gridCells == 0 <==> r.prefetchedRows == 0)
    && r.queries == (if r.tiles == 0 then 0 else CeilingOf(r.tiles))
  }

  // The matcher

  function MatchablePoints(cs: seq<Candidate>): seq<Point>
    requires forall c :: c in cs ==> CandidateOk(c)
  {
    if cs == [] then []
    else
      var c := cs[|cs| - 1];
      assert cs[|cs| - 1] in cs && CandidateOk(c);
      MatchablePoints(cs[..|cs| - 1]) + if Matchable(c.route) then [c.payload.at.value] else []
  }

  lemma {:induction false} PointsCounted(cs: seq<Candidate>)
    requires forall c :: c in cs ==> CandidateOk(c)
    ensures |MatchablePoints(cs)| == CountRoute(cs, Ready) + CountRoute(cs, ClosedEvidence)
  {
    if cs != [] {
      PointsCounted(cs[..|cs| - 1]);
      assert cs[|cs| - 1] in cs;
    }
  }

  lemma {:induction false} ScanIsShorter(geo: Geo, points: seq<Point>, rows: seq<Place>)
    ensures |BoxScan(geo, points, rows)| <= |rows|
    ensures points == [] ==> BoxScan(geo, points, rows) == []
  {
    if rows != [] {
      ScanIsShorter(geo, points, rows[..|rows| - 1]);
    }
  }

  ghost predicate Accepted(candidates: seq<Candidate>, partition: string, snapshot: seq<Place>)
  {
    && |candidates| <= 5000 && |snapshot| <= 500000
    && (forall c :: c in candidates ==> c.partition == partition && CandidateOk(c))
    && CanonicallyOrdered(candidates, (c: Candidate) => (c.key, c.observation))
    && IdsIncrease(snapshot) && forall r :: r in snapshot ==> PlaceOk(r)
  }

  /** The rows a candidate is compared with, read off the whole snapshot. */
  ghost predicate IsDecision(world: World, candidates: seq<Candidate>, snapshot: seq<Place>, c: Candidate, d: Decision)
    requires forall c :: c in candidates ==> CandidateOk(c)
    requires CandidateOk(c)
  {
    if !Matchable(c.route) then d == Decide(world, c, [])
    else
      exists near ::
        && AreTenNearest(near, world.geo, c.payload.at.value,
                         set r | r in snapshot && InSomeBox(world.geo, MatchablePoints(candidates), r.at))
        && d == Decide(world, c, near)
  }

  lemma NeighboursAreOk(world: World, p: Point, near: seq<Neighbour>, rows: set<Place>)
    requires Sane(world) && AreTenNearest(near, world.geo, p, rows) && forall r :: r in rows ==> PlaceOk(r)
    ensures NearOk(world, near)
  {
    hide Bounds, IsPlaceId;
    var s :| IsRanking(s, Within(world.geo, p, rows)) && near == FirstTen(s);
    forall n | n in near ensures IsPlaceId(n.place.id) && 0.0 <= n.distance <= MAX_DISTANCE {
      assert n in s && n.place in rows && PlaceOk(n.place);
    }
  }

  lemma InScopeBounds(world: World, c: Candidate)
    requires Sane(world) && CandidateOk(c) && Matchable(c.route)
    ensures c.payload.at.Some? && Bounds(world.geo, c.payload.at.value)
  {
    hide Bounds;
  }

  method AssertCanonicalSnapshot(rows: seq<Place>) returns (ok: bool)
    ensures ok <==> |rows| <= 500000 && IdsIncrease(rows) && forall r :: r in rows ==> PlaceOk(r)
  {
    hide PlaceOk;
    if |rows| > 500000 { return false; }
    for i := 0 to |rows|
      invariant IdsIncrease(rows[..i]) && forall j :: 0 <= j < i ==> PlaceOk(rows[j])
    {
      assert rows[i] in rows;
      if !PlaceOk(rows[i]) { return false; }
      if i > 0 && !Canonical.LexBefore(rows[i - 1].id, rows[i].id) { return false; }
      forall j | 0 <= j < i ensures Canonical.LexBefore(rows[j].id, rows[i].id) {
        if j < i - 1 {
          assert rows[..i][j] == rows[j] && rows[..i][i - 1] == rows[i - 1];
          CanonicalProofs.LexTransitive(rows[j].id, rows[i - 1].id, rows[i].id);
        }
      }
    }
    assert rows[..|rows|] == rows;
    ok := true;
  }

  method SelectPoints(candidates: seq<Candidate>) returns (points: seq<Point>)
    requires forall c :: c in candidates ==> CandidateOk(c)
    ensures points == MatchablePoints(candidates)
  {
    points := [];
    for i := 0 to |candidates|
      invariant points == MatchablePoints(candidates[..i])
    {
      assert candidates[..i + 1][..i] == candidates[..i];
      assert candidates[i] in candidates && CandidateOk(candidates[i]);
      if Matchable(candidates[i].route) { points := points + [candidates[i].payload.at.value]; }
    }
    assert candidates[..|candidates|] == candidates;
  }

  method CountRoutes(candidates: seq<Candidate>) returns (counts: map<Route, nat>)
    ensures counts.Keys == AllRoutes() && forall route :: route in AllRoutes() ==>
              counts[route] == CountRoute(candidates, route)
  {
    counts := map route | route in AllRoutes() :: 0;
    for i := 0 to |candidates|
      invariant counts.Keys == AllRoutes() && forall route :: route in AllRoutes() ==>
                  counts[route] == CountRoute(candidates[..i], route)
    {
      assert candidates[..i + 1][..i] == candidates[..i];
      EveryRoute(candidates[i].route);
      counts := counts[candidates[i].route := counts[candidates[i].route] + 1];
    }
    assert candidates[..|candidates|] == candidates;
  }

  /** One decision per candidate, each against the grid over the prefetched rows. */
  method DecideAll(world: World, candidates: seq<Candidate>, ghost partition: string, snapshot: seq<Place>,
                   prefetched: seq<Place>, grid: map<Cell, seq<Place>>)
    returns (decisions: seq<Decision>)
    requires Sane(world) && Accepted(candidates, partition, snapshot)
    requires prefetched == BoxScan(world.geo, MatchablePoints(candidates), snapshot) && IsGrid(grid, prefetched)
    ensures |decisions| == |candidates|
    ensures forall i :: 0 <= i < |candidates| ==> IsDecision(world, candidates, snapshot, candidates[i], decisions[i])
    ensures forall i ::
              0 <= i < |candidates|
              && IsTagged("srk_", candidates[i].key) && IsTagged("obs_", candidates[i].observation) ==>
              DecisionOk(decisions[i])
  {
    hide DecisionOk, IsTagged, Bounds, IsGrid, AreTenNearest, NearOk, CandidateOk, Best, PlaceOk, InSomeBox;
    decisions := [];
    ScanIncreases(world.geo, MatchablePoints(candidates), snapshot);
    ScanMembers(world.geo, MatchablePoints(candidates), snapshot);
    for i := 0 to |candidates|
      invariant |decisions| == i
      invariant forall j :: 0 <= j < i ==> IsDecision(world, candidates, snapshot, candidates[j], decisions[j])
      invariant forall j ::
                  0 <= j < i && IsTagged("srk_", candidates[j].key) && IsTagged("obs_", candidates[j].observation) ==>
                  DecisionOk(decisions[j])
    {
      var c := candidates[i];
      assert c in candidates;
      var decision := DecideOne(world, candidates, snapshot, prefetched, grid, c);
      decisions := decisions + [decision];
    }
  }

  method DecideOne(world: World, ghost candidates: seq<Candidate>, ghost snapshot: seq<Place>,
                   ghost prefetched: seq<Place>,
                   grid: map<Cell, seq<Place>>, c: Candidate)
    returns (d: Decision)
    requires Sane(world) && CandidateOk(c) && forall x :: x in candidates ==> CandidateOk(x)
    requires prefetched == BoxScan(world.geo, MatchablePoints(candidates), snapshot) && IsGrid(grid, prefetched)
             && IdsIncrease(prefetched)
    requires forall r :: r in prefetched ==> PlaceOk(r)
    ensures IsDecision(world, candidates, snapshot, c, d)
    ensures IsTagged("srk_", c.key) && IsTagged("obs_", c.observation) ==> DecisionOk(d)
  {
    hide DecisionOk, IsTagged, Bounds, IsGrid, AreTenNearest, IdsIncrease, Sane, BoxScan, Best, PlaceOk;
    if !Matchable(c.route) {
      d := Decide(world, c, []);
      NothingIsNear(world);
      if IsTagged("srk_", c.key) && IsTagged("obs_", c.observation) { DecisionsAreValid(world, c, []); }
      return;
    }
    InScopeBounds(world, c);
    var p := c.payload.at.value;
    RowsAreCoordinates(prefetched);
    var near := NearbyPlaces(world.geo, grid, p, prefetched);
    NeighboursAreOk(world, p, near, set r | r in prefetched);
    PrefetchedLookupIsScan(near, world.geo, p, MatchablePoints(candidates), snapshot);
    d := Decide(world, c, near);
    if IsTagged("srk_", c.key) && IsTagged("obs_", c.observation) { DecisionsAreValid(world, c, near); }
  }

  lemma RowsAreCoordinates(rows: seq<Place>)
    requires forall r :: r in rows ==> PlaceOk(r)
    ensures forall r :: r in rows ==> IsCoordinate(r.at)
  {
    hide IsPlaceId, IsCoordinate;
    assert forall r :: r in rows ==> PlaceOk(r);
  }

  lemma NothingIsNear(world: World)
    ensures NearOk(world, [])
  {
  }

  /** Equal candidates get equal decisions. */
  lemma DecisionsAgree(world: World, candidates: seq<Candidate>, snapshot: seq<Place>, c: Candidate, d: Decision,
                       e: Decision)
    requires forall x :: x in candidates ==> CandidateOk(x)
    requires CandidateOk(c) && IsDecision(world, candidates, snapshot, c, d)
             && IsDecision(world, candidates, snapshot, c, e)
    ensures d == e
  {
    hide AreTenNearest, Decide;
    if Matchable(c.route) {
      var rows := set r | r in snapshot && InSomeBox(world.geo, MatchablePoints(candidates), r.at);
      var p := c.payload.at.value;
      var a :| AreTenNearest(a, world.geo, p, rows) && d == Decide(world, c, a);
      var b :| AreTenNearest(b, world.geo, p, rows) && e == Decide(world, c, b);
      TenNearestAreUnique(a, b, world.geo, p, rows);
    }
  }

  lemma DecisionsAreOrdered(world: World, candidates: seq<Candidate>, partition: string, snapshot: seq<Place>,
                            decisions: seq<Decision>)
    requires Accepted(candidates, partition, snapshot) && |decisions| == |candidates|
    requires forall i :: 0 <= i < |candidates| ==>
               CandidateOk(candidates[i]) && IsDecision(world, candidates, snapshot, candidates[i], decisions[i])
    ensures CanonicallyOrdered(decisions, IdentityOf)
  {
    hide Before, CandidateOk;
    forall i | 0 < i < |decisions|
      ensures !Before(IdentityOf(decisions[i]), IdentityOf(decisions[i - 1]))
      ensures IdentityOf(decisions[i]) == IdentityOf(decisions[i - 1]) ==> decisions[i] == decisions[i - 1]
    {
      DecisionKeepsIdentity(world, candidates, snapshot, candidates[i - 1], decisions[i - 1]);
      DecisionKeepsIdentity(world, candidates, snapshot, candidates[i], decisions[i]);
      if IdentityOf(decisions[i]) == IdentityOf(decisions[i - 1]) {
        DecisionsAgree(world, candidates, snapshot, candidates[i], decisions[i - 1], decisions[i]);
      }
    }
  }

  lemma DecisionKeepsIdentity(world: World, candidates: seq<Candidate>, snapshot: seq<Place>, c: Candidate, d: Decision)
    requires forall x :: x in candidates ==> CandidateOk(x)
    requires CandidateOk(c) && IsDecision(world, candidates, snapshot, c, d)
    ensures IdentityOf(d) == (c.key, c.observation) && d.route == c.route
  {
  }

  /** A non-empty result of the matcher; the error cases are the rejected inputs. */
  datatype Outcome = Outcome(decisions: seq<Decision>, report: Report)

  function ReportOn(candidates: seq<Candidate>, counts: map<Route, nat>, snapshotRows: nat, prefetchedRows: nat,
                    tiles: nat,
                    gridCells: nat, decisions: seq<Decision>): Report
    requires counts.Keys == AllRoutes()
  {
    Report(counts, |candidates|, counts[Ready], counts[ClosedEvidence], snapshotRows, prefetchedRows, tiles,
           if tiles > 0 then CeilingOf(tiles) else 0, gridCells,
           CountDisposed(decisions, Matched), CountDisposed(decisions, Ambiguous), CountDisposed(decisions, LikelyNew),
           CountDisposed(decisions, Closed), CountWithSource(decisions), CountDisposed(decisions, ClosedDropped),
             |decisions|)
  }

  /** All counts of a run reconcile. */
  lemma ReportsReconcile(candidates: seq<Candidate>, counts: map<Route, nat>, snapshotRows: nat, prefetchedRows: nat,
                         tiles: nat,
                         gridCells: nat, decisions: seq<Decision>)
    requires counts.Keys == AllRoutes() && forall route :: route in AllRoutes() ==>
               counts[route] == CountRoute(candidates, route)
    requires |decisions| == |candidates|
    requires forall i :: 0 <= i < |candidates| ==> decisions[i].route == candidates[i].route && DecisionOk(decisions[i])
    requires forall c :: c in candidates ==> CandidateOk(c)
    requires tiles <= |MatchablePoints(candidates)| && (tiles == 0 <==> |MatchablePoints(candidates)| == 0)
    requires prefetchedRows <= snapshotRows && (tiles == 0 ==> prefetchedRows == 0)
    requires gridCells <= prefetchedRows && (gridCells == 0 <==> prefetchedRows == 0)
    ensures ReportOk(ReportOn(candidates, counts, snapshotRows, prefetchedRows, tiles, gridCells, decisions))
  {
    hide DecisionOk, CandidateOk, MatchablePoints, CountRoute, CountDecided, CountDisposed, CountWithSource, CeilingOf;
    assert forall d :: d in decisions ==> DecisionOk(d);
    DispositionsPartition(decisions);
    RoutesPartition(candidates);
    PointsCounted(candidates);
    DecidedAsRouted(candidates, decisions, Ready);
    DecidedAsRouted(candidates, decisions, ClosedEvidence);
  }

  /**
   * matchApizzaCandidatesV1: a result exactly for accepted inputs, each decision taken against a plain scan
   * of the snapshot, and with well-formed identities both validators accept everything it returns.
   */
  method MatchCandidates(world: World, candidates: seq<Candidate>, partition: string, snapshot: seq<Place>)
    returns (outcome: Option<Outcome>)
    requires Sane(world)
    ensures outcome.Some? <==> Accepted(candidates, partition, snapshot)
    ensures outcome.Some? ==>
              && |outcome.value.decisions| == |candidates|
              && (forall i :: 0 <= i < |candidates| ==>
                    CandidateOk(candidates[i]) && IsDecision(world, candidates, snapshot, candidates[i],
                                                             outcome.value.decisions[i]))
              && CanonicallyOrdered(outcome.value.decisions, IdentityOf)
    ensures outcome.Some? && (forall c :: c in candidates ==>
                              IsTagged("srk_", c.key) && IsTagged("obs_", c.observation)) ==>
              (forall d :: d in outcome.value.decisions ==> DecisionOk(d)) && ReportOk(outcome.value.report)
  {
    hide IsDecision, CandidateOk, DecisionOk, IsTagged, Sane, AreBoxes, IsGrid, BoxScan, MatchablePoints, ReportOk,
         ReportOn,
         CanonicallyOrdered, IdsIncrease, Before, IdentityOf, PlaceOk;
    var candidatesOk := AssertCandidateInputs(candidates, partition);
    if !candidatesOk { return None; }
    var snapshotOk := AssertCanonicalSnapshot(snapshot);
    if !snapshotOk { return None; }
    var points := SelectPoints(candidates);
    var boxes := BuildPrefetchBoxes(world.geo, points);
    var prefetched := PrefetchCanonicalRows(world.geo, snapshot, boxes, points);
    ScanIsShorter(world.geo, points, snapshot);
    var grid := BuildGrid(prefetched);
    var decided := DecideAll(world, candidates, partition, snapshot, prefetched, grid);
    AllOk(candidates);
    DecisionsAreOrdered(world, candidates, partition, snapshot, decided);
    SortedStays(decided, IdentityOf);
    var decisions := IdentityOrder.Sort(decided, IdentityOf);
    var counts := CountRoutes(candidates);
    var report := ReportOn(candidates, counts, |snapshot|, |prefetched|, |boxes|, |grid|, decisions);
    outcome := Some(Outcome(decisions, report));
    if forall c :: c in candidates ==> IsTagged("srk_", c.key) && IsTagged("obs_", c.observation) {
      forall i | 0 <= i < |candidates| ensures decisions[i].route == candidates[i].route && DecisionOk(decisions[i]) {
        assert candidates[i] in candidates;
        DecisionKeepsIdentity(world, candidates, snapshot, candidates[i], decisions[i]);
      }
      ReportsReconcile(candidates, counts, |snapshot|, |prefetched|, |boxes|, |grid|, decisions);
    }
  }

  lemma AllOk(candidates: seq<Candidate>)
    requires forall c :: c in candidates ==> CandidateOk(c)
    ensures forall i :: 0 <= i < |candidates| ==> CandidateOk(candidates[i])
  {
    hide CandidateOk;
    assert forall i :: 0 <= i < |candidates| ==> candidates[i] in candidates;
  }
}
