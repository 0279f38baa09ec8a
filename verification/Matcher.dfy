/**
 * Match decisions (profiles/apizzamichigan/src/matching-v1.ts:228-345, 426-720, 791-937): a candidate is
 * routed, compared with its ten nearest prefetched rows and disposed of; two validators check the outcome.
 */
module Matcher {
  import opened Wrappers
  import opened JsonGrammar
  import opened IdentityOrder
  import opened SpatialIndex
  import opened SpatialLookup
  import Canonical
  import CanonicalProofs
  import Identity

  datatype Route = Ready | ClosedEvidence | NonPizza | Unusable | OutOfScope

  datatype MatchMethod = ExactIdentifier | ExactName | StrongSpatial | WeakSpatial | SpatialOnly | NoMatch

  datatype Disposition = NotCompared | Matched | Ambiguous | LikelyNew | Closed | ClosedDropped

  /** `region` is trimmed and upper-cased; `pizza` tells whether the text of the row names pizza. */
  datatype Payload = Payload(
    sourceId: string, name: string, at: Option<Point>, website: Option<string>, phone: Option<string>,
    region: string, pizza: bool, closed: bool)

  datatype Candidate = Candidate(key: Id, observation: Id, partition: string, payload: Payload, route: Route)

  /** Distances and text comparison, taken as given. */
  datatype World = World(
    geo: Geo,
    score: (string, Option<string>) -> real,
    website: (Option<string>, Option<string>) -> bool,
    phone: (Option<string>, Option<string>) -> bool)

  // Routing

  predicate InScope(p: Point, region: string)
  {
    || (41.6 <= p.lat <= 48.4 && -90.5 <= p.lng <= -82.1)
    || (40.4 <= p.lat <= 45.1 && -79.8 <= p.lng <= -71.7 && (region == "" || region == "NY"))
    || (32.4 <= p.lat <= 42.1 && -124.5 <= p.lng <= -114.1)
    || (25.8 <= p.lat <= 36.6 && -106.7 <= p.lng <= -93.5)
  }

  function Classify(p: Payload): Route
  {
    if p.name == "" || p.at.None? then Unusable
    else if !InScope(p.at.value, p.region) then OutOfScope
    else if !p.pizza then NonPizza
    else if p.closed then ClosedEvidence
    else Ready
  }

  predicate Matchable(r: Route)
  {
    r.Ready? || r.ClosedEvidence?
  }

  /**
   * From points in scope to points on the map, a distance within the limit bounds both coordinate differences;
   * scores are fractions.
   */
  ghost predicate Sane(world: World)
  {
    && (forall p: Point, region: string :: InScope(p, region) ==> Bounds(world.geo, p))
    && (forall p, q :: world.geo.distance(p, q) >= 0.0)
    && (forall a, b :: 0.0 <= world.score(a, b) <= 1.0)
  }

  // The assumption is met by distances that wrap around the globe

  /** A difference of longitudes, the short way round. */
  function Around(degrees: real): real
  {
    degrees - 360.0 * ((degrees + 180.0) / 360.0).Floor as real
  }

  function Magnitude(x: real): real
  {
    if x < 0.0 then -x else x
  }

  function GlobeDistance(p: Point, q: Point): real
  {
    METERS_PER_DEGREE * Magnitude(q.lat - p.lat) + 66000.0 * Magnitude(Around(q.lng - p.lng))
  }

  lemma AroundRepeats(degrees: real)
    ensures Around(degrees + 360.0) == Around(degrees)
    ensures -180.0 <= degrees < 540.0 ==> Around(degrees) == if degrees < 180.0 then degrees else degrees - 360.0
  {
    assert (degrees + 360.0 + 180.0) / 360.0 == (degrees + 180.0) / 360.0 + 1.0;
    assert ((degrees + 180.0) / 360.0 + 1.0).Floor == ((degrees + 180.0) / 360.0).Floor + 1;
  }

  /** A distance that repeats every 360 degrees of longitude meets the assumption. */
  lemma WrappingDistancesAreSane(world: World)
    requires forall p, q :: world.geo.distance(p, q) == GlobeDistance(p, q)
    requires forall a, b :: 0.0 <= world.score(a, b) <= 1.0
    ensures Sane(world)
    ensures forall p, q: Point :: world.geo.distance(p, Point(q.lat, q.lng + 360.0)) == world.geo.distance(p, q)
  {
    forall p: Point, region: string | InScope(p, region) ensures Bounds(world.geo, p) {
      forall q | IsCoordinate(q) && world.geo.distance(p, q) <= MAX_DISTANCE
        ensures -2.0 * GRID_CELL <= q.lat - p.lat <= 2.0 * GRID_CELL
                && -2.0 * GRID_CELL <= q.lng - p.lng <= 2.0 * GRID_CELL
      {
        AroundRepeats(q.lng - p.lng);
      }
    }
    forall p, q: Point ensures world.geo.distance(p, Point(q.lat, q.lng + 360.0)) == world.geo.distance(p, q) {
      AroundRepeats(q.lng - p.lng);
      assert q.lng + 360.0 - p.lng == q.lng - p.lng + 360.0;
    }
  }

  // Evaluation

  datatype Evaluated = Evaluated(place: Place, distance: real, score: real, website: bool, phone: bool,
                                 method_: MatchMethod)

  function MethodFor(distance: real, score: real, identified: bool): MatchMethod
  {
    if identified && distance <= 100.0 && score == 0.0 then SpatialOnly
    else if identified && distance <= 100.0 then ExactIdentifier
    else if distance <= 25.0 && score >= 0.99 then ExactName
    else if distance <= 75.0 && score >= 0.99 then StrongSpatial
    else if distance <= 50.0 && score >= 0.6 then StrongSpatial
    else if distance <= 100.0 && score >= 0.35 then WeakSpatial
    else if distance <= 25.0 then SpatialOnly
    else NoMatch
  }

  function Evaluate(world: World, p: Payload, n: Neighbour): Evaluated
  {
    var score := world.score(p.name, n.place.name);
    var website, phone := world.website(p.website, n.place.website), world.phone(p.phone, n.place.phone);
    Evaluated(n.place, n.distance, score, website, phone, MethodFor(n.distance, score, website || phone))
  }

  /** bestMatch's order: a usable method first, then score, distance and id. */
  predicate Better(a: Evaluated, b: Evaluated)
  {
    if a.method_.NoMatch? != b.method_.NoMatch? then b.method_.NoMatch?
    else if a.score != b.score then a.score > b.score
    else if a.distance != b.distance then a.distance < b.distance
    else Canonical.LexBefore(a.place.id, b.place.id)
  }

  function Best(world: World, p: Payload, near: seq<Neighbour>): Option<Evaluated>
  {
    if near == [] then None
    else
      var rest := Best(world, p, near[..|near| - 1]);
      var last := Evaluate(world, p, near[|near| - 1]);
      if rest.None? || Better(last, rest.value) then Some(last) else rest
  }

  /** `best` is the evaluation of some neighbour, and no neighbour's evaluation is better. */
  predicate IsUnbeaten(world: World, p: Payload, near: seq<Neighbour>, best: Evaluated)
  {
    && (exists n :: n in near && Evaluate(world, p, n) == best)
    && (forall n :: n in near ==> !Better(Evaluate(world, p, n), best))
  }

  /** The best match is one of the neighbours, and none of them beats it. */
  lemma {:induction false} BestIsUnbeaten(world: World, p: Payload, near: seq<Neighbour>)
    ensures near == [] <==> Best(world, p, near).None?
    ensures near != [] ==> IsUnbeaten(world, p, near, Best(world, p, near).value)
  {
    BestUnfolds(world, p, near);
    hide Best, Better, Evaluate, IsUnbeaten;
    if near != [] {
      var rest, last := near[..|near| - 1], near[|near| - 1];
      BestIsUnbeaten(world, p, rest);
      if rest == [] {
        OneIsUnbeaten(world, p, last);
      } else {
        BetterOfTwo(world, p, rest, Best(world, p, rest).value, last);
      }
    }
  }

  lemma BestUnfolds(world: World, p: Payload, near: seq<Neighbour>)
    ensures near == [] ==> Best(world, p, near) == None
    ensures near != [] ==>
              var rest, last := near[..|near| - 1], Evaluate(world, p, near[|near| - 1]);
              && near == rest + [near[|near| - 1]]
              && Best(world, p, near) ==
                   var best := Best(world, p, rest); if best.None? || Better(last, best.value) then Some(last) else best
  {
    hide Better, Evaluate;
  }

  lemma OneIsUnbeaten(world: World, p: Payload, n: Neighbour)
    ensures IsUnbeaten(world, p, [n], Evaluate(world, p, n))
  {
    hide Better, Evaluate;
    BetterIsIrreflexive(Evaluate(world, p, n));
    assert n in [n];
  }

  lemma BetterOfTwo(world: World, p: Payload, rest: seq<Neighbour>, kept: Evaluated, last: Neighbour)
    requires IsUnbeaten(world, p, rest, kept)
    ensures IsUnbeaten(world, p, rest + [last], if Better(Evaluate(world, p, last), kept) then Evaluate(world, p, last)
                       else kept)
  {
    hide Better, Evaluate;
    var near, new_ := rest + [last], Evaluate(world, p, last);
    var best := if Better(new_, kept) then new_ else kept;
    var n :| n in rest && Evaluate(world, p, n) == kept;
    assert n in near && last in near;
    forall m | m in near ensures !Better(Evaluate(world, p, m), best) {
      if m !in rest {
        assert m == last;
        BetterIsIrreflexive(new_);
      } else if Better(new_, kept) && Better(Evaluate(world, p, m), new_) {
        BetterIsTransitive(Evaluate(world, p, m), new_, kept);
      }
    }
  }

  lemma BetterIsIrreflexive(a: Evaluated)
    ensures !Better(a, a)
  {
    CanonicalProofs.LexAsymmetric(a.place.id, a.place.id);
  }

  lemma BetterIsTransitive(a: Evaluated, b: Evaluated, c: Evaluated)
    requires Better(a, b) && Better(b, c)
    ensures Better(a, c)
  {
    if a.method_.NoMatch? == b.method_.NoMatch? == c.method_.NoMatch? && a.score == b.score == c.score
      && a.distance == b.distance == c.distance {
      CanonicalProofs.LexTransitive(a.place.id, b.place.id, c.place.id);
    }
  }

  // Decisions

  predicate Accepts(m: MatchMethod)
  {
    m.ExactIdentifier? || m.ExactName? || m.StrongSpatial?
  }

  function ActiveDisposition(best: Option<Evaluated>): Disposition
  {
    if best.None? || best.value.method_.NoMatch? then LikelyNew
    else if best.value.method_.WeakSpatial? || best.value.method_.SpatialOnly? then Ambiguous
    else Matched
  }

  datatype Decision = Decision(
    key: Id, observation: Id, sourceId: string, route: Route, disposition: Disposition,
    best: Option<Evaluated>, nearest: Option<(Place, real, real)>, stableSource: bool)

  /** The decision on a candidate given its neighbours, which only matchable candidates have. */
  function Decide(world: World, c: Candidate, near: seq<Neighbour>): Decision
  {
    var stable := c.payload.sourceId != "";
    if !Matchable(c.route) then
      Decision(c.key, c.observation, c.payload.sourceId, c.route, NotCompared, None, None, stable)
    else
      var best := Best(world, c.payload, near);
      var nearest := if near == [] then None
                     else Some((near[0].place, near[0].distance, world.score(c.payload.name, near[0].place.name)));
      var disposition :=
        if c.route.ClosedEvidence? then
          if stable && best.Some? && Accepts(best.value.method_) then Closed else ClosedDropped
        else ActiveDisposition(best);
      Decision(c.key, c.observation, c.payload.sourceId, c.route, disposition, best, nearest, stable)
  }

  // What the decision validator demands

  predicate IsHex(u: Unit)
  {
    0x30 <= u <= 0x39 || 0x61 <= u <= 0x66
  }

  predicate IsTagged(tag: string, t: Id)
  {
    |t| == |tag| + 64 && t[..|tag|] == Identity.Ascii(tag) && forall i :: |tag| <= i < |t| ==> IsHex(t[i])
  }

  predicate EvaluatedOk(e: Evaluated)
  {
    && IsPlaceId(e.place.id) && 0.0 <= e.distance <= MAX_DISTANCE && 0.0 <= e.score <= 1.0
    && e.method_ == MethodFor(e.distance, e.score, e.website || e.phone)
  }

  predicate DecisionOk(d: Decision)
  {
    var accepted := d.best.Some? && Accepts(d.best.value.method_);
    && IsTagged("srk_", d.key) && IsTagged("obs_", d.observation)
    && (d.best.Some? ==> EvaluatedOk(d.best.value))
    && (d.nearest.Some? ==>
         IsPlaceId(d.nearest.value.0.id) && 0.0 <= d.nearest.value.1 <= MAX_DISTANCE
         && 0.0 <= d.nearest.value.2 <= 1.0)
    && (d.disposition.NotCompared? ==> !Matchable(d.route) && d.best.None? && d.nearest.None?)
    && (!d.disposition.NotCompared? ==> Matchable(d.route))
    && d.stableSource == (d.sourceId != "")
    && (d.disposition.Matched? ==> d.route.Ready? && accepted)
    && (d.disposition.Ambiguous? ==>
         d.route.Ready? && d.best.Some?
         && (d.best.value.method_.WeakSpatial? || d.best.value.method_.SpatialOnly?))
    && (d.disposition.LikelyNew? ==> d.route.Ready? && (d.best.None? || d.best.value.method_.NoMatch?))
    && (d.disposition.Closed? ==> d.route.ClosedEvidence? && accepted && d.stableSource)
    && (d.disposition.ClosedDropped? ==> d.route.ClosedEvidence? && !(accepted && d.stableSource))
    && (d.best.None? <==> d.nearest.None?)
    && (d.best.Some? ==> d.nearest.value.1 <= d.best.value.distance)
  }

  /** Neighbours as a lookup returns them: within the limit and closest first. */
  predicate NearOk(world: World, near: seq<Neighbour>)
  {
    Ranked(near) && forall n :: n in near ==> IsPlaceId(n.place.id) && 0.0 <= n.distance <= MAX_DISTANCE
  }

  /** The best match is a fair evaluation, and the nearest row is never farther away. */
  lemma BestIsFair(world: World, p: Payload, near: seq<Neighbour>)
    requires Sane(world) && NearOk(world, near) && near != []
    ensures Best(world, p, near).Some?
    ensures EvaluatedOk(Best(world, p, near).value) && near[0].distance <= Best(world, p, near).value.distance
  {
    hide Best, Bounds, MethodFor, Better;
    BestIsUnbeaten(world, p, near);
    var best := Best(world, p, near).value;
    var n :| n in near && Evaluate(world, p, n) == best;
    var k :| 0 <= k < |near| && near[k] == n;
    assert k > 0 ==> Closer(near[0], near[k]);
  }

  /** Every decision the matcher takes passes the decision validator. */
  lemma DecisionsAreValid(world: World, c: Candidate, near: seq<Neighbour>)
    requires Sane(world) && NearOk(world, near) && IsTagged("srk_", c.key) && IsTagged("obs_", c.observation)
    ensures DecisionOk(Decide(world, c, near))
  {
    hide IsTagged, Best, Bounds, MethodFor, EvaluatedOk, Better, Closer;
    if near == [] {
      BestIsUnbeaten(world, c.payload, near);
    } else {
      BestIsFair(world, c.payload, near);
      assert near[0] in near;
    }
  }

  // Order of candidates and decisions

  function IdentityOf(d: Decision): (Id, Id)
  {
    (d.key, d.observation)
  }

  predicate CandidateOk(c: Candidate)
  {
    c.key != [] && c.observation != [] && c.route == Classify(c.payload)
  }

  /** assertCandidateInputs */
  method AssertCandidateInputs(candidates: seq<Candidate>, partition: string) returns (ok: bool)
    ensures ok <==>
              && |candidates| <= 5000
              && (forall c :: c in candidates ==> c.partition == partition && CandidateOk(c))
              && CanonicallyOrdered(candidates, (c: Candidate) => (c.key, c.observation))
  {
    hide CandidateOk, Before;
    if |candidates| > 5000 { return false; }
    var prior: Option<Candidate> := None;
    for i := 0 to |candidates|
      invariant forall j :: 0 <= j < i ==> candidates[j].partition == partition && CandidateOk(candidates[j])
      invariant prior == if i == 0 then None else Some(candidates[i - 1])
      invariant CanonicallyOrdered(candidates[..i], (c: Candidate) => (c.key, c.observation))
    {
      var candidate := candidates[i];
      assert candidate in candidates;
      if candidate.partition != partition || !CandidateOk(candidate) { return false; }
      if prior.Some? {
        var key, priorKey := (candidate.key, candidate.observation), (prior.value.key, prior.value.observation);
        if Before(key, priorKey) { return false; }
        if key == priorKey && candidate != prior.value { return false; }
      }
      prior := Some(candidate);
    }
    assert candidates[..|candidates|] == candidates;
    ok := true;
  }

  /** validateDecisions */
  method ValidateDecisions(decisions: seq<Decision>) returns (ok: bool)
    ensures ok <==> (forall d :: d in decisions ==> DecisionOk(d)) && CanonicallyOrdered(decisions, IdentityOf)
  {
    hide DecisionOk, Before, IdentityOf;
    var prior: Option<Decision> := None;
    for i := 0 to |decisions|
      invariant forall j :: 0 <= j < i ==> DecisionOk(decisions[j])
      invariant prior == if i == 0 then None else Some(decisions[i - 1])
      invariant CanonicallyOrdered(decisions[..i], IdentityOf)
    {
      var decision := decisions[i];
      assert decision in decisions;
      if !DecisionOk(decision) { return false; }
      if prior.Some? {
        if Before(IdentityOf(decision), IdentityOf(prior.value)) { return false; }
        if IdentityOf(decision) == IdentityOf(prior.value) && decision != prior.value { return false; }
      }
      prior := Some(decision);
    }
    assert decisions[..|decisions|] == decisions;
    ok := true;
  }
}
