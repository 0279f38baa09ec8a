/**
 * Policy ancestry in an apply run (packages/core/src/readiness.ts:144-400, 1029-1074): the checks on each
 * stage's outputs see only its own inputs, yet they decide what may be written publicly.
 */
module ApplyAncestry {
  import opened Ancestry

  /** A source policy of the profile. */
  datatype Policy = Policy(approved: bool, attribution: string, retention: int)

  type Profile = map<string, Policy>

  datatype Dataset = Dataset(stamps: set<string>, approved: bool, attributions: set<string>, startedAt: int,
                             expiresAt: int,
                             records: nat, parents: set<nat>)

  type Ledger = seq<Dataset>

  function ParentsOf(ledger: Ledger): (r: Parents)
    ensures |r| == |ledger|
  {
    seq(|ledger|, i requires 0 <= i < |ledger| => ledger[i].parents)
  }

  /**
   * assertSourceDatasetBinding: one stamp, its policy's redistribution and attribution, expiry within its retention.
   */
  predicate SourceAccepted(profile: Profile, d: Dataset)
  {
    exists policy ::
      && d.stamps == {policy} && policy in profile
      && d.approved == profile[policy].approved
      && d.attributions == (if profile[policy].attribution == "" then {} else {profile[policy].attribution})
      && 0 <= d.expiresAt - d.startedAt <= profile[policy].retention
  }

  /** assertStageOutputsRegistered for an internal output: restrictions accumulated over all inputs of the stage. */
  ghost predicate DerivedAccepted(ledger: Ledger, d: Dataset)
  {
    && d.parents != {} && (forall p :: p in d.parents ==> p < |ledger|)
    && d.stamps == (set p, x | p in d.parents && x in ledger[p].stamps :: x)
    && d.attributions == (set p, x | p in d.parents && x in ledger[p].attributions :: x)
    && (d.approved <==> forall p :: p in d.parents ==> ledger[p].approved)
    && (forall p :: p in d.parents ==> d.expiresAt <= ledger[p].expiresAt)
  }

  /** The loop over the parents that accumulates what a derived output must carry. */
  method CheckDerived(ledger: Ledger, d: Dataset) returns (ok: bool)
    ensures ok <==> DerivedAccepted(ledger, d)
  {
    if d.parents == {} || exists p :: p in d.parents && p >= |ledger| { return false; }
    var stamps: set<string>, attributions: set<string>, approved, inTime := {}, {}, true, true;
    var todo := d.parents;
    while todo != {}
      invariant todo <= d.parents
      invariant stamps == set p, x | p in d.parents - todo && x in ledger[p].stamps :: x
      invariant attributions == set p, x | p in d.parents - todo && x in ledger[p].attributions :: x
      invariant approved <==> forall p :: p in d.parents - todo ==> ledger[p].approved
      invariant inTime <==> forall p :: p in d.parents - todo ==> d.expiresAt <= ledger[p].expiresAt
    {
      var p :| p in todo;
      assert d.parents - (todo - {p}) == d.parents - todo + {p};
      todo := todo - {p};
      stamps, attributions := stamps + ledger[p].stamps, attributions + ledger[p].attributions;
      approved := approved && ledger[p].approved;
      inTime := inTime && d.expiresAt <= ledger[p].expiresAt;
    }
    assert d.parents - todo == d.parents;
    ok := d.stamps == stamps && d.attributions == attributions && d.approved == approved && inTime;
  }

  /** Every dataset of the run was accepted when its stage returned it. */
  ghost predicate AllAccepted(profile: Profile, ledger: Ledger)
  {
    forall h :: 0 <= h < |ledger| ==>
      if ledger[h].parents == {} then SourceAccepted(profile, ledger[h]) else DerivedAccepted(ledger[..h], ledger[h])
  }

  /** Stamps, redistribution and expiry of a dataset are those of its source ancestors together. */
  ghost predicate CarriesOrigins(ledger: Ledger, h: nat)
    requires h < |ledger|
  {
    && (forall x :: x in ledger[h].stamps <==> exists s: nat ::
         IsOrigin(ParentsOf(ledger), h, s)
         && x in ledger[s].stamps)
    && (forall x :: x in ledger[h].attributions <==>
        exists s: nat :: IsOrigin(ParentsOf(ledger), h, s) && x in ledger[s].attributions)
    && (ledger[h].approved <==> forall s: nat :: IsOrigin(ParentsOf(ledger), h, s) ==> ledger[s].approved)
    && (forall s: nat :: IsOrigin(ParentsOf(ledger), h, s) ==> ledger[h].expiresAt <= ledger[s].expiresAt)
  }

  lemma {:induction false} AncestryIsPreserved(profile: Profile, ledger: Ledger, h: nat)
    requires AllAccepted(profile, ledger) && h < |ledger|
    ensures CarriesOrigins(ledger, h)
    decreases h
  {
    if ledger[h].parents == {} {
      SourceCarriesItself(ledger, h);
    } else {
      assert DerivedAccepted(ledger[..h], ledger[h]);
      forall p | p in ledger[h].parents ensures CarriesOrigins(ledger, p) {
        AncestryIsPreserved(profile, ledger, p);
      }
      DerivedCarriesOrigins(ledger, h);
    }
  }

  lemma SourceCarriesItself(ledger: Ledger, h: nat)
    requires h < |ledger| && ledger[h].parents == {}
    ensures CarriesOrigins(ledger, h)
  {
    forall s: nat ensures IsOrigin(ParentsOf(ledger), h, s) <==> s == h {
      RootIsItsOrigin(ParentsOf(ledger), h, s);
    }
    hide IsOrigin;
  }

  lemma StampsOfParents(ledger: Ledger, h: nat)
    requires h < |ledger| && DerivedAccepted(ledger[..h], ledger[h])
    ensures var d := ledger[h];
            && (forall x :: x in d.stamps <==> exists p :: p in d.parents && x in ledger[p].stamps)
            && (forall x :: x in d.attributions <==> exists p :: p in d.parents && x in ledger[p].attributions)
            && (d.approved <==> forall p :: p in d.parents ==> ledger[p].approved)
            && (forall p :: p in d.parents ==> d.expiresAt <= ledger[p].expiresAt)
  {
    assert forall p :: p in ledger[h].parents ==> ledger[..h][p] == ledger[p];
  }

  lemma DerivedCarriesOrigins(ledger: Ledger, h: nat)
    requires h < |ledger| && DerivedAccepted(ledger[..h], ledger[h])
    requires forall p :: p in ledger[h].parents ==> CarriesOrigins(ledger, p)
    ensures CarriesOrigins(ledger, h)
  {
    hide IsOrigin;
    var parents, d := ParentsOf(ledger), ledger[h];
    forall s: nat ensures IsOrigin(parents, h, s) <==> exists p :: p in d.parents && IsOrigin(parents, p, s) {
      OriginsOfParents(parents, h, s);
    }
    assert forall p :: p in d.parents ==> ledger[..h][p] == ledger[p];
    hide ParentsOf, DerivedAccepted;
    StampsOfParents(ledger, h);
    forall x ensures x in d.stamps <==> exists s: nat :: IsOrigin(parents, h, s) && x in ledger[s].stamps {
      if x in d.stamps {
        var p :| p in d.parents && x in ledger[p].stamps;
        var s: nat :| IsOrigin(parents, p, s) && x in ledger[s].stamps;
        assert IsOrigin(parents, h, s);
      }
    }
    forall x ensures x in d.attributions <==> exists s: nat :: IsOrigin(parents, h, s) && x in ledger[s].attributions {
      if x in d.attributions {
        var p :| p in d.parents && x in ledger[p].attributions;
        var s: nat :| IsOrigin(parents, p, s) && x in ledger[s].attributions;
        assert IsOrigin(parents, h, s);
      }
    }
  }

  // Public writes

  /** authorizeEffect's check of a public write on an input dataset, at time `now`. */
  predicate PublicWriteAllowed(profile: Profile, d: Dataset, now: int)
  {
    && d.expiresAt > now && d.approved && d.stamps != {}
    && forall x :: x in d.stamps ==> x in profile && profile[x].approved
  }

  /** Whatever may be written publicly rests on redistribution-approved, unexpired sources only. */
  lemma PublicWritesHaveApprovedSources(profile: Profile, ledger: Ledger, h: nat, now: int, s: nat)
    requires AllAccepted(profile, ledger) && h < |ledger| && PublicWriteAllowed(profile, ledger[h], now)
    requires IsOrigin(ParentsOf(ledger), h, s)
    ensures ledger[s].approved && ledger[s].expiresAt > now
    ensures exists policy :: policy in profile && ledger[s].stamps == {policy} && profile[policy].approved
  {
    AncestryIsPreserved(profile, ledger, h);
    assert SourceAccepted(profile, ledger[s]) by {
      assert ledger[s].parents == {};
    }
    hide IsOrigin, ParentsOf;
    var policy :| ledger[s].stamps == {policy} && policy in profile && ledger[s].approved == profile[policy].approved;
    assert policy in ledger[s].stamps;
  }

  /** The two public-write conditions never disagree: a dataset is approved exactly when all its stamps are. */
  lemma ApprovalIsConsistent(profile: Profile, ledger: Ledger, h: nat)
    requires AllAccepted(profile, ledger) && h < |ledger|
    ensures ledger[h].approved <==> forall x :: x in ledger[h].stamps ==> x in profile && profile[x].approved
  {
    AncestryIsPreserved(profile, ledger, h);
    forall s: nat | IsOrigin(ParentsOf(ledger), h, s) ensures SourceAccepted(profile, ledger[s]) {
      assert ledger[s].parents == {};
    }
    hide IsOrigin, ParentsOf;
    if !ledger[h].approved {
      var s: nat :| IsOrigin(ParentsOf(ledger), h, s) && !ledger[s].approved;
      var policy :| ledger[s].stamps == {policy} && policy in profile && ledger[s].approved == profile[policy].approved;
      assert policy in ledger[s].stamps;
    }
  }
}
