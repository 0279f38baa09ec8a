/**
 * Resource admission (packages/core/src/admission.ts:16-111), whose sums are taken in double arithmetic
 * (IEEE 754 binary64): the verdict is nevertheless the exact one.
 */
module Admission {
  import opened Wrappers

  // Double addition of integers

  const TWO_53: int := 0x20_0000_0000_0000

  predicate Safe(n: int)
  {
    -TWO_53 < n < TWO_53
  }

  /** The spacing of doubles around `n`: 53 significant bits. */
  function Spacing(n: nat): (u: nat)
    ensures u >= 1 && (n >= TWO_53 ==> u >= 2 && u * (TWO_53 / 2) <= n)
  {
    if n < TWO_53 then 1 else 2 * Spacing(n / 2)
  }

  /** The nearest double, ties to even. */
  function RoundNat(n: nat): nat
  {
    var u := Spacing(n);
    var q, r := n / u, n % u;
    if 2 * r < u || (2 * r == u && q % 2 == 0) then q * u else (q + 1) * u
  }

  function Round(n: int): int
  {
    if n >= 0 then RoundNat(n) else 0 - RoundNat(-n)
  }

  lemma RoundIsExact(n: nat)
    requires n <= TWO_53
    ensures RoundNat(n) == n
  {
    if n == TWO_53 {
      assert Spacing(n / 2) == 1 && Spacing(n) == 2;
    }
  }

  /** A sum beyond the safe range never rounds back into it. */
  lemma RoundStaysLarge(n: nat)
    requires n >= TWO_53
    ensures RoundNat(n) >= TWO_53
  {
    var u := Spacing(n);
    var q := n / u;
    assert q >= TWO_53 / 2 by { QuotientAtLeast(n, u, TWO_53 / 2); }
    assert q * u >= TWO_53 / 2 * u >= TWO_53 by { MulMono(q, TWO_53 / 2, u); }
    assert (q + 1) * u >= q * u;
  }

  lemma QuotientAtLeast(n: nat, u: nat, k: nat)
    requires u > 0 && k * u <= n
    ensures n / u >= k
  {
    var q := n / u;
    assert n == q * u + n % u;
    if q < k {
      MulMono(k, q + 1, u);
    }
  }

  lemma MulMono(a: nat, b: nat, u: nat)
    requires a >= b
    ensures a * u >= b * u
  {
  }

  // Sums

  function Sum(values: seq<nat>, start: nat): nat
  {
    if values == [] then start else Sum(values[..|values| - 1], start) + values[|values| - 1]
  }

  /** `reduce` in double arithmetic. */
  function DoubleSum(values: seq<nat>, start: nat): nat
  {
    if values == [] then start else RoundNat(DoubleSum(values[..|values| - 1], start) + values[|values| - 1])
  }

  /** The computed sum is exact while it is safe, and unsafe exactly when the true sum is. */
  lemma {:induction false} DoubleSumIsExactOrLarge(values: seq<nat>, start: nat)
    requires start < TWO_53 && forall v :: v in values ==> v < TWO_53
    ensures if Sum(values, start) < TWO_53 then DoubleSum(values, start) == Sum(values, start)
            else DoubleSum(values, start) >= TWO_53
  {
    if values != [] {
      var rest, last := values[..|values| - 1], values[|values| - 1];
      assert last in values && forall v :: v in rest ==> v in values;
      DoubleSumIsExactOrLarge(rest, start);
      var partial := DoubleSum(rest, start);
      if partial + last <= TWO_53 {
        RoundIsExact(partial + last);
      } else {
        RoundStaysLarge(partial + last);
      }
    }
  }

  // Reservations

  datatype Reservation = Reservation(
    group: string, cpu: int, rss: int, children: int, wallTime: int, artifact: int, minFreeDisk: int)

  datatype Limits = Limits(cpu: int, rss: int, children: int, minFreeDisk: int, groups: map<string, int>)

  predicate Natural(n: int)
  {
    0 <= n < TWO_53
  }

  predicate NaturalReservation(r: Reservation)
  {
    Natural(r.cpu) && Natural(r.rss) && Natural(r.children) && Natural(r.wallTime) && Natural(r.artifact)
      && Natural(r.minFreeDisk)
  }

  /** Negative and unsafe values never reach a sum that matters; the model clips them to stay in `nat`. */
  function Clip(n: int): nat
  {
    if n < 0 then 0 else n
  }

  function Column(active: seq<Reservation>, field: Reservation -> int): seq<nat>
  {
    seq(|active|, i requires 0 <= i < |active| => Clip(field(active[i])))
  }

  function InGroup(active: seq<Reservation>, group: string): nat
  {
    if active == [] then 0 else InGroup(active[..|active| - 1], group) + if active[|active| - 1].group == group then 1
    else 0
  }

  function Total(active: seq<Reservation>, field: Reservation -> int): nat
  {
    Sum(Column(active, field), 0)
  }

  const Cpu := (r: Reservation) => r.cpu
  const Rss := (r: Reservation) => r.rss
  const Children := (r: Reservation) => r.children
  const Artifact := (r: Reservation) => r.artifact

  predicate Wellformed(limits: Limits, active: seq<Reservation>, candidate: Reservation, freeDisk: int)
  {
    && Natural(limits.cpu) && Natural(limits.rss) && Natural(limits.children) && Natural(limits.minFreeDisk)
    && Natural(freeDisk)
    && NaturalReservation(candidate)
    && (forall r :: r in active ==> r.group != "" && r.group in limits.groups && NaturalReservation(r))
  }

  /** The verdict in exact integers. */
  predicate Admissible(limits: Limits, active: seq<Reservation>, candidate: Reservation, freeDisk: int)
  {
    && Wellformed(limits, active, candidate, freeDisk)
    && candidate.group in limits.groups && 0 < limits.groups[candidate.group] < TWO_53
    && InGroup(active, candidate.group) < limits.groups[candidate.group]
    && Total(active, Cpu) + candidate.cpu <= limits.cpu
    && Total(active, Rss) + candidate.rss <= limits.rss
    && Total(active, Children) + candidate.children <= limits.children
    && limits.minFreeDisk <= freeDisk - Sum(Column(active, Artifact), candidate.artifact)
    && candidate.minFreeDisk <= freeDisk - Sum(Column(active, Artifact), candidate.artifact)
    && (forall r :: r in active ==> r.minFreeDisk <= freeDisk - Sum(Column(active, Artifact), candidate.artifact))
  }

  function HigherOf(a: int, b: int): int
  {
    if a > b then a else b
  }

  function MaxDisk(active: seq<Reservation>, floor: int): int
  {
    if active == [] then floor
    else
      var rest := MaxDisk(active[..|active| - 1], floor);
      if active[|active| - 1].minFreeDisk > rest then active[|active| - 1].minFreeDisk else rest
  }

  lemma {:induction false} MaxDiskIsMax(active: seq<Reservation>, floor: int, bound: int)
    ensures MaxDisk(active, floor) <= bound <==> floor <= bound && forall r :: r in active ==> r.minFreeDisk <= bound
  {
    if active != [] {
      var rest, last := active[..|active| - 1], active[|active| - 1];
      MaxDiskIsMax(rest, floor, bound);
      assert active == rest + [last];
    }
  }

  lemma ColumnIsNatural(active: seq<Reservation>, field: Reservation -> int)
    requires forall r :: r in active ==> Natural(field(r))
    ensures forall v :: v in Column(active, field) ==> v < TWO_53
  {
    var column := Column(active, field);
    forall v | v in column ensures v < TWO_53 {
      var i :| 0 <= i < |column| && column[i] == v;
      assert active[i] in active;
    }
  }

  /** The two comparisons of one resource, in doubles. */
  predicate Fits(active: seq<Reservation>, field: Reservation -> int, candidate: int, limit: int)
  {
    var total := DoubleSum(Column(active, field), 0);
    Safe(total) && candidate <= limit && RoundNat(total + Clip(candidate)) <= limit
  }

  lemma FitsIsExact(active: seq<Reservation>, field: Reservation -> int, candidate: int, limit: int)
    requires (forall r :: r in active ==> Natural(field(r))) && Natural(candidate) && Natural(limit)
    ensures Fits(active, field, candidate, limit) <==> Total(active, field) + candidate <= limit
  {
    ColumnIsNatural(active, field);
    DoubleSumIsExactOrLarge(Column(active, field), 0);
    var total := DoubleSum(Column(active, field), 0);
    if total + candidate <= TWO_53 { RoundIsExact(total + candidate); } else { RoundStaysLarge(total + candidate); }
  }

  lemma DiskIsExact(active: seq<Reservation>, candidate: Reservation, freeDisk: int, required: int)
    requires (forall r :: r in active ==> NaturalReservation(r)) && NaturalReservation(candidate) && Natural(freeDisk)
             && required >= 0
    ensures Round(freeDisk - DoubleSum(Column(active, Artifact), Clip(candidate.artifact))) < required <==>
              freeDisk - Sum(Column(active, Artifact), candidate.artifact) < required
  {
    ColumnIsNatural(active, Artifact);
    DoubleSumIsExactOrLarge(Column(active, Artifact), candidate.artifact);
    var reserved := DoubleSum(Column(active, Artifact), candidate.artifact);
    if reserved <= freeDisk {
      RoundIsExact(freeDisk - reserved);
    } else {
      RoundIsPositive(reserved - freeDisk);
    }
  }

  lemma RoundIsPositive(n: nat)
    requires n > 0
    ensures RoundNat(n) > 0
  {
    if n <= TWO_53 { RoundIsExact(n); } else { RoundStaysLarge(n); }
  }

  method CheckNatural(name: string, value: int) returns (reasons: seq<string>)
    ensures reasons == [] <==> Natural(value)
  {
    reasons := if Natural(value) then [] else [name + " must be a non-negative safe integer"];
  }

  method CheckReservation(r: Reservation) returns (reasons: seq<string>)
    ensures reasons == [] <==> NaturalReservation(r)
  {
    reasons := [];
    var values := [("maxCpuUnits", r.cpu), ("maxRssBytes", r.rss), ("maxChildProcesses", r.children),
                   ("maxWallTimeMs", r.wallTime),
                   ("maxArtifactBytes", r.artifact), ("minFreeDiskBytes", r.minFreeDisk)];
    for i := 0 to |values|
      invariant reasons == [] <==> forall j :: 0 <= j < i ==> Natural(values[j].1)
    {
      var more := CheckNatural(values[i].0, values[i].1);
      reasons := reasons + more;
    }
    assert values[0].1 == r.cpu && values[1].1 == r.rss && values[2].1 == r.children && values[3].1 == r.wallTime
           && values[4].1 == r.artifact && values[5].1 == r.minFreeDisk;
  }

  method CheckActive(limits: Limits, active: seq<Reservation>) returns (reasons: seq<string>)
    ensures reasons == [] <==> forall r :: r in active ==>
              r.group != "" && r.group in limits.groups && NaturalReservation(r)
  {
    reasons := [];
    for i := 0 to |active|
      invariant reasons == [] <==> forall j :: 0 <= j < i ==>
                  active[j].group != "" && active[j].group in limits.groups && NaturalReservation(active[j])
    {
      if active[i].group == "" || active[i].group !in limits.groups {
        reasons := reasons + ["has an unknown admission group"];
      }
      var more := CheckReservation(active[i]);
      reasons := reasons + more;
    }
  }

  /** evaluateAdmission: the double-arithmetic verdict is the exact one, on all inputs. */
  method EvaluateAdmission(limits: Limits, active: seq<Reservation>, candidate: Reservation, freeDisk: int)
    returns (admitted: bool, reasons: seq<string>)
    ensures admitted <==> reasons == []
    ensures admitted <==> Admissible(limits, active, candidate, freeDisk)
  {
    reasons := [];
    var values := [("maxCpuUnits", limits.cpu), ("maxRssBytes", limits.rss), ("maxChildProcesses", limits.children),
                   ("minFreeDiskBytes", limits.minFreeDisk), ("observedFreeDiskBytes", freeDisk)];
    for i := 0 to |values|
      invariant reasons == [] <==> forall j :: 0 <= j < i ==> Natural(values[j].1)
    {
      var more := CheckNatural(values[i].0, values[i].1);
      reasons := reasons + more;
    }
    assert values[0].1 == limits.cpu && values[1].1 == limits.rss && values[2].1 == limits.children
           && values[3].1 == limits.minFreeDisk && values[4].1 == freeDisk;
    var more := CheckReservation(candidate);
    reasons := reasons + more;
    more := CheckActive(limits, active);
    reasons := reasons + more;
    assert reasons == [] <==> Wellformed(limits, active, candidate, freeDisk);
    more := CheckGroup(limits, active, candidate);
    reasons := reasons + more;
    more := CheckTotals(limits, active, candidate, freeDisk);
    VerdictIsExact(limits, active, candidate, freeDisk);
    reasons := reasons + more;
    admitted := reasons == [];
  }

  method CheckGroup(limits: Limits, active: seq<Reservation>, candidate: Reservation) returns (reasons: seq<string>)
    ensures reasons == [] <==>
              && candidate.group in limits.groups && 0 < limits.groups[candidate.group] < TWO_53
              && InGroup(active, candidate.group) < limits.groups[candidate.group]
  {
    if candidate.group !in limits.groups { return ["unknown admission group"]; }
    reasons := [];
    var most := limits.groups[candidate.group];
    if !Safe(most) || most <= 0 { reasons := reasons + ["invalid limit"]; }
    var inGroup := 0;
    for i := 0 to |active|
      invariant inGroup == InGroup(active[..i], candidate.group)
    {
      assert active[..i + 1][..i] == active[..i];
      if active[i].group == candidate.group { inGroup := inGroup + 1; }
    }
    assert active[..|active|] == active;
    if inGroup >= most { reasons := reasons + ["is full"]; }
  }

  /** What the double-arithmetic checks accept. */
  predicate TotalsFit(limits: Limits, active: seq<Reservation>, candidate: Reservation, freeDisk: int)
  {
    && Fits(active, Cpu, candidate.cpu, limits.cpu) && Fits(active, Rss, candidate.rss, limits.rss)
    && Fits(active, Children, candidate.children, limits.children)
    && var floor := HigherOf(limits.minFreeDisk, candidate.minFreeDisk);
       Round(freeDisk - DoubleSum(Column(active, Artifact), Clip(candidate.artifact))) >= MaxDisk(active, floor)
  }

  method DoubleTotal(values: seq<nat>, start: nat) returns (total: nat)
    ensures total == DoubleSum(values, start)
  {
    total := start;
    for i := 0 to |values|
      invariant total == DoubleSum(values[..i], start)
    {
      assert values[..i + 1][..i] == values[..i];
      total := RoundNat(total + values[i]);
    }
    assert values[..|values|] == values;
  }

  /** The total of one resource, its candidate and both together against the host limit. */
  method CheckResource(name: string, active: seq<Reservation>, field: Reservation -> int, candidate: int, limit: int)
    returns (reasons: seq<string>)
    ensures reasons == [] <==> Fits(active, field, candidate, limit)
  {
    hide DoubleSum, RoundNat, Column, Clip;
    reasons := [];
    var total := DoubleTotal(Column(active, field), 0);
    if !Safe(total) { reasons := reasons + ["active reservation totals must be safe integers"]; }
    if candidate > limit { reasons := reasons + ["candidate " + name + " reservation exceeds host limit"]; }
    if RoundNat(total + Clip(candidate)) > limit { reasons := reasons + [name + " reservation exceeds host limit"]; }
  }

  method CheckTotals(limits: Limits, active: seq<Reservation>, candidate: Reservation, freeDisk: int)
    returns (reasons: seq<string>)
    ensures reasons == [] <==> TotalsFit(limits, active, candidate, freeDisk)
  {
    hide DoubleSum, RoundNat, Column, MaxDisk, Clip, Fits;
    var cpu := CheckResource("CPU", active, Cpu, candidate.cpu, limits.cpu);
    var rss := CheckResource("RSS", active, Rss, candidate.rss, limits.rss);
    var children := CheckResource("child-process", active, Children, candidate.children, limits.children);
    reasons := cpu + rss + children;
    var floor := HigherOf(limits.minFreeDisk, candidate.minFreeDisk);
    var required := MaxDisk(active, floor);
    var reserved := DoubleTotal(Column(active, Artifact), Clip(candidate.artifact));
    if Round(freeDisk - reserved) < required {
      reasons := reasons + ["artifact reservation would cross the free-disk watermark"];
    }
  }

  lemma VerdictIsExact(limits: Limits, active: seq<Reservation>, candidate: Reservation, freeDisk: int)
    ensures Admissible(limits, active, candidate, freeDisk) <==>
              && Wellformed(limits, active, candidate, freeDisk)
              && candidate.group in limits.groups && 0 < limits.groups[candidate.group] < TWO_53
              && InGroup(active, candidate.group) < limits.groups[candidate.group]
              && TotalsFit(limits, active, candidate, freeDisk)
  {
    hide Wellformed, NaturalReservation, InGroup, Fits, Total, Sum, DoubleSum, Round, Column, MaxDisk, Clip;
    if Wellformed(limits, active, candidate, freeDisk) {
      ResourcesAreExact(limits, active, candidate, freeDisk);
      WatermarkIsExact(limits, active, candidate, freeDisk);
    }
  }

  lemma ResourcesAreExact(limits: Limits, active: seq<Reservation>, candidate: Reservation, freeDisk: int)
    requires Wellformed(limits, active, candidate, freeDisk)
    ensures Fits(active, Cpu, candidate.cpu, limits.cpu) <==> Total(active, Cpu) + candidate.cpu <= limits.cpu
    ensures Fits(active, Rss, candidate.rss, limits.rss) <==> Total(active, Rss) + candidate.rss <= limits.rss
    ensures Fits(active, Children, candidate.children, limits.children) <==>
              Total(active, Children) + candidate.children <= limits.children
  {
    hide Fits, Total;
    FitsIsExact(active, Cpu, candidate.cpu, limits.cpu);
    FitsIsExact(active, Rss, candidate.rss, limits.rss);
    FitsIsExact(active, Children, candidate.children, limits.children);
  }

  /** The disk part: no watermark is above what the exact reservations leave free. */
  lemma WatermarkIsExact(limits: Limits, active: seq<Reservation>, candidate: Reservation, freeDisk: int)
    requires Wellformed(limits, active, candidate, freeDisk)
    ensures var left := freeDisk - Sum(Column(active, Artifact), candidate.artifact);
            var floor := HigherOf(limits.minFreeDisk, candidate.minFreeDisk);
            var observed := Round(freeDisk - DoubleSum(Column(active, Artifact), Clip(candidate.artifact)));
            observed >= MaxDisk(active, floor) <==>
              && limits.minFreeDisk <= left && candidate.minFreeDisk <= left
              && forall r :: r in active ==> r.minFreeDisk <= left
  {
    var floor := HigherOf(limits.minFreeDisk, candidate.minFreeDisk);
    hide Sum, DoubleSum, Round, Column, MaxDisk;
    MaxDiskIsMax(active, floor, freeDisk - Sum(Column(active, Artifact), candidate.artifact));
    MaxDiskAtLeast(active, floor);
    DiskIsExact(active, candidate, freeDisk, MaxDisk(active, floor));
  }

  lemma {:induction false} MaxDiskAtLeast(active: seq<Reservation>, floor: int)
    ensures MaxDisk(active, floor) >= floor
  {
    if active != [] {
      MaxDiskAtLeast(active[..|active| - 1], floor);
    }
  }

  // Allocation over time

  datatype Event = Admit(candidate: Reservation, freeDisk: int) | Release(index: nat)

  function Without<T>(s: seq<T>, i: nat): seq<T>
    requires i < |s|
  {
    s[..i] + s[i + 1..]
  }

  /** The reservations a host holds when it admits exactly what the verdict allows. */
  function Held(limits: Limits, events: seq<Event>): seq<Reservation>
  {
    if events == [] then []
    else
      var active := Held(limits, events[..|events| - 1]);
      match events[|events| - 1]
      case Admit(candidate, freeDisk) =>
        if Admissible(limits, active, candidate, freeDisk) then active + [candidate] else active
      case Release(i) => if i < |active| then Without(active, i) else active
  }

  /** Every total and every group stays within its limit. */
  predicate WithinLimits(limits: Limits, active: seq<Reservation>)
  {
    && (forall r :: r in active ==> NaturalReservation(r) && r.group in limits.groups)
    && Total(active, Cpu) <= Clip(limits.cpu) && Total(active, Rss) <= Clip(limits.rss)
    && Total(active, Children) <= Clip(limits.children)
    && forall group :: group in limits.groups ==> InGroup(active, group) <= Clip(limits.groups[group])
  }

  lemma TotalAppend(active: seq<Reservation>, r: Reservation, field: Reservation -> int)
    ensures Total(active + [r], field) == Total(active, field) + Clip(field(r))
  {
    var longer := Column(active + [r], field);
    assert longer[..|active|] == Column(active, field);
  }

  lemma {:induction false} SumSplit(values: seq<nat>, i: nat, start: nat)
    requires i < |values|
    ensures Sum(values, start) == Sum(Without(values, i), start) + values[i]
  {
    var last := |values| - 1;
    if i < last {
      SumSplit(values[..last], i, start);
      assert Without(values, i)[..last - 1] == Without(values[..last], i);
    } else {
      assert Without(values, i) == values[..last];
    }
  }

  lemma TotalWithout(active: seq<Reservation>, i: nat, field: Reservation -> int, start: nat)
    requires i < |active|
    ensures Sum(Column(Without(active, i), field), start) <= Sum(Column(active, field), start)
  {
    assert Column(Without(active, i), field) == Without(Column(active, field), i);
    SumSplit(Column(active, field), i, start);
  }

  lemma {:induction false} GroupWithout(active: seq<Reservation>, i: nat, group: string)
    requires i < |active|
    ensures InGroup(Without(active, i), group) <= InGroup(active, group)
  {
    hide InGroup;
    var last := |active| - 1;
    GroupUnfolds(active, group);
    if i < last {
      GroupUnfolds(Without(active, i), group);
      GroupWithout(active[..last], i, group);
      WithoutPrefix(active, i);
    } else {
      assert Without(active, i) == active[..last];
    }
  }

  lemma WithoutPrefix<T>(s: seq<T>, i: nat)
    requires i < |s| - 1
    ensures Without(s, i)[..|s| - 2] == Without(s[..|s| - 1], i)
    ensures Without(s, i)[|s| - 2] == s[|s| - 1]
  {
  }

  lemma GroupUnfolds(active: seq<Reservation>, group: string)
    requires active != []
    ensures var last := |active| - 1;
            InGroup(active, group) == InGroup(active[..last], group) + if active[last].group == group then 1 else 0
  {
  }

  /** Over any sequence of admissions and releases. */
  lemma {:induction false} HeldWithinLimits(limits: Limits, events: seq<Event>)
    ensures WithinLimits(limits, Held(limits, events))
  {
    hide Total, InGroup, NaturalReservation, Admissible;
    if events == [] {
      NothingHeld(limits);
    } else {
      HeldWithinLimits(limits, events[..|events| - 1]);
      var active := Held(limits, events[..|events| - 1]);
      match events[|events| - 1]
      case Admit(candidate, freeDisk) =>
        if Admissible(limits, active, candidate, freeDisk) { AdmitKeepsLimits(limits, active, candidate, freeDisk); }
      case Release(i) =>
        if i < |active| { ReleaseKeepsLimits(limits, active, i); }
    }
  }

  lemma NothingHeld(limits: Limits)
    ensures WithinLimits(limits, [])
  {
    assert Column([], Cpu) == [] && Column([], Rss) == [] && Column([], Children) == [];
  }

  lemma AdmitKeepsLimits(limits: Limits, active: seq<Reservation>, candidate: Reservation, freeDisk: int)
    requires WithinLimits(limits, active) && Admissible(limits, active, candidate, freeDisk)
    ensures WithinLimits(limits, active + [candidate])
  {
    hide Total;
    TotalAppend(active, candidate, Cpu);
    TotalAppend(active, candidate, Rss);
    TotalAppend(active, candidate, Children);
    assert (active + [candidate])[..|active|] == active;
  }

  lemma ReleaseKeepsLimits(limits: Limits, active: seq<Reservation>, i: nat)
    requires WithinLimits(limits, active) && i < |active|
    ensures WithinLimits(limits, Without(active, i))
  {
    hide Column, Sum, InGroup, NaturalReservation;
    TotalWithout(active, i, Cpu, 0);
    TotalWithout(active, i, Rss, 0);
    TotalWithout(active, i, Children, 0);
    forall group ensures InGroup(Without(active, i), group) <= InGroup(active, group) {
      GroupWithout(active, i, group);
    }
  }

  /** What is admissible stays admissible when an active reservation goes away. */
  lemma ReleaseOnlyHelps(limits: Limits, active: seq<Reservation>, i: nat, candidate: Reservation, freeDisk: int)
    requires i < |active| && Admissible(limits, active, candidate, freeDisk)
    ensures Admissible(limits, Without(active, i), candidate, freeDisk)
  {
    hide Column, Sum, InGroup;
    TotalWithout(active, i, Cpu, 0);
    TotalWithout(active, i, Rss, 0);
    TotalWithout(active, i, Children, 0);
    TotalWithout(active, i, Artifact, candidate.artifact);
    GroupWithout(active, i, candidate.group);
    assert forall r :: r in Without(active, i) ==> r in active;
  }
}
