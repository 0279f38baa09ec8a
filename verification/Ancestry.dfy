/** Ancestors in a growing ledger: each node names earlier nodes as its parents. */
module Ancestry {
  type Parents = seq<set<nat>>

  predicate IsRoot(parents: Parents, s: nat)
    requires s < |parents|
  {
    parents[s] == {}
  }

  /** Node `h` was made from node `s` through any number of steps. */
  ghost predicate Reaches(parents: Parents, h: nat, s: nat)
    requires h < |parents|
    decreases h
  {
    h == s || exists p :: p in parents[h] && p < h && Reaches(parents, p, s)
  }

  /** The roots `h` was made from. */
  ghost predicate IsOrigin(parents: Parents, h: nat, s: nat): (r: bool)
    requires h < |parents|
    ensures r ==> s < |parents|
  {
    s < |parents| && IsRoot(parents, s) && Reaches(parents, h, s)
  }

  lemma RootIsItsOrigin(parents: Parents, h: nat, s: nat)
    requires h < |parents| && IsRoot(parents, h)
    ensures IsOrigin(parents, h, s) <==> s == h
  {
  }

  /** The origins of a made node are those of its parents. */
  lemma OriginsOfParents(parents: Parents, h: nat, s: nat)
    requires h < |parents| && !IsRoot(parents, h) && forall p :: p in parents[h] ==> p < h
    ensures IsOrigin(parents, h, s) <==> exists p :: p in parents[h] && IsOrigin(parents, p, s)
  {
  }
}
