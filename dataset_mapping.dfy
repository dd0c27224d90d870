/**
 * The pre-processing script's allocation of hospitals to regions: the
 * largest-remainder (Hamilton) apportionment of a number of hospitals
 * over regions by population, and the cutting of a shuffled hospital
 * list into consecutive slices, one per region.
 *
 * A region table is a Python dict; it is a sequence of (name, population)
 * pairs in insertion order with distinct names. The float arithmetic of
 * the script is taken exactly: region i's share of T hospitals over a
 * total population P is p*T/P, whose floor is the integer quotient and
 * whose fractional part is the remainder p*T % P over P.
 */
module DatasetMapping {

  function Min(a: int, b: int): int
  {
    if a <= b then a else b
  }

  // ------------------------------------------------------------ regions

  predicate DistinctNames(regions: seq<(string, nat)>)
  {
    forall a, b :: 0 <= a < b < |regions| ==> regions[a].0 != regions[b].0
  }

  function Names(regions: seq<(string, nat)>): set<string>
  {
    set i | 0 <= i < |regions| :: regions[i].0
  }

  /** sum(regions.values()). */
  function TotalPopulation(regions: seq<(string, nat)>): nat
  {
    if regions == [] then 0 else regions[0].1 + TotalPopulation(regions[1..])
  }

  /** floor(population / totalPopulation * total), taken exactly. */
  function Quota(population: nat, total: nat, totalPopulation: nat): nat
    requires totalPopulation > 0
  {
    population * total / totalPopulation
  }

  /** The fractional part of the exact share, as a numerator over totalPopulation. */
  function Remainder(population: nat, total: nat, totalPopulation: nat): nat
    requires totalPopulation > 0
  {
    population * total % totalPopulation
  }

  /** The quota is the floor of the exact share and the remainder what is left of it. */
  lemma {:induction false} QuotaIsFloor(population: nat, total: nat, totalPopulation: nat)
    requires totalPopulation > 0
    ensures Quota(population, total, totalPopulation) * totalPopulation
            + Remainder(population, total, totalPopulation) == population * total
    ensures 0 <= Remainder(population, total, totalPopulation) < totalPopulation
  {
  }

  /** One entry of fractional_allocation: the region, its fractional part and its place in the dict. */
  datatype Share = Share(region: string, remainder: nat, index: nat)

  /** fractional_allocation, in dict order. */
  function Shares(regions: seq<(string, nat)>, total: nat): (shares: seq<Share>)
    requires |regions| > 0 ==> TotalPopulation(regions) > 0
    ensures |shares| == |regions|
    ensures forall i :: 0 <= i < |regions| ==>
      shares[i] == Share(regions[i].0, Remainder(regions[i].1, total, TotalPopulation(regions)), i)
  {
    seq(|regions|, i requires 0 <= i < |regions| =>
      Share(regions[i].0, Remainder(regions[i].1, total, TotalPopulation(regions)), i))
  }

  // ------------------------------------------------------------ the sort

  /**
   * The order sorted(..., key=fraction, reverse=True) puts the shares in:
   * larger fractional part first, and, the sort being stable, dict order
   * among equal parts.
   */
  predicate Precedes(x: Share, y: Share)
  {
    x.remainder > y.remainder || (x.remainder == y.remainder && x.index < y.index)
  }

  predicate Ordered(s: seq<Share>)
  {
    forall a, b :: 0 <= a < b < |s| ==> Precedes(s[a], s[b])
  }

  predicate DistinctIndices(s: seq<Share>)
  {
    forall a, b :: 0 <= a < b < |s| ==> s[a].index != s[b].index
  }

  function Insert(x: Share, s: seq<Share>): (r: seq<Share>)
    ensures multiset(r) == multiset(s) + multiset{x}
  {
    if s == [] || Precedes(x, s[0]) then [x] + s
    else
      assert s == [s[0]] + s[1..];
      [s[0]] + Insert(x, s[1..])
  }

  /** The stable descending sort of the shares by fractional part. */
  function SortShares(s: seq<Share>): (r: seq<Share>)
    ensures multiset(r) == multiset(s)
  {
    if s == [] then []
    else
      assert s == [s[0]] + s[1..];
      Insert(s[0], SortShares(s[1..]))
  }

  lemma {:induction false} InsertOrdered(x: Share, s: seq<Share>)
    requires Ordered(s)
    requires forall y :: y in s ==> y.index != x.index
    ensures Ordered(Insert(x, s))
    decreases |s|
  {
    if s != [] && !Precedes(x, s[0]) {
      var rest := Insert(x, s[1..]);
      InsertOrdered(x, s[1..]);
      assert Insert(x, s) == [s[0]] + rest;
      forall b | 0 <= b < |rest|
        ensures Precedes(s[0], rest[b])
      {
        assert rest[b] in multiset(rest);
        if rest[b] != x {
          assert rest[b] in s[1..];
          var c :| 0 <= c < |s[1..]| && s[1..][c] == rest[b];
          assert s[c + 1] == rest[b];
        }
      }
    }
  }

  lemma {:induction false} SortOrdered(s: seq<Share>)
    requires DistinctIndices(s)
    ensures Ordered(SortShares(s))
    decreases |s|
  {
    if s != [] {
      SortOrdered(s[1..]);
      forall y | y in SortShares(s[1..])
        ensures y.index != s[0].index
      {
        assert y in multiset(SortShares(s[1..]));
        var c :| 0 <= c < |s[1..]| && s[1..][c] == y;
        assert s[c + 1] == y;
      }
      InsertOrdered(s[0], SortShares(s[1..]));
    }
  }

  // ------------------------------------------------------------ the allocation

  /** sum(allocation.values()), the dict walked in region order. */
  function SumAllocation(regions: seq<(string, nat)>, allocation: map<string, nat>): nat
    requires Names(regions) <= allocation.Keys
  {
    if regions == [] then 0
    else
      assert Names(regions[1..]) <= Names(regions) by {
        forall i | 0 <= i < |regions[1..]| ensures regions[1..][i].0 in Names(regions) {
          assert regions[1..][i] == regions[i + 1];
        }
      }
      assert regions[0].0 in Names(regions);
      allocation[regions[0].0] + SumAllocation(regions[1..], allocation)
  }

  /** The sum of the quotas. */
  function QuotaTotal(regions: seq<(string, nat)>, total: nat, totalPopulation: nat): nat
    requires totalPopulation > 0
  {
    if regions == [] then 0
    else Quota(regions[0].1, total, totalPopulation) + QuotaTotal(regions[1..], total, totalPopulation)
  }

  /** The sum of the remainders. */
  function RemainderTotal(regions: seq<(string, nat)>, total: nat, totalPopulation: nat): nat
    requires totalPopulation > 0
  {
    if regions == [] then 0
    else Remainder(regions[0].1, total, totalPopulation) + RemainderTotal(regions[1..], total, totalPopulation)
  }

  /** remaining = total_hospitals - allocated_total after the floors. */
  function Leftover(regions: seq<(string, nat)>, total: nat): int
    requires TotalPopulation(regions) > 0
  {
    total - QuotaTotal(regions, total, TotalPopulation(regions))
  }

  /** The shares in the order the leftover units are handed out. */
  function Ranked(regions: seq<(string, nat)>, total: nat): (ranked: seq<Share>)
    requires |regions| > 0 ==> TotalPopulation(regions) > 0
    ensures |ranked| == |regions|
  {
    var ranked := SortShares(Shares(regions, total));
    assert |multiset(ranked)| == |multiset(Shares(regions, total))|;
    ranked
  }

  /** The shares that receive one more unit: the first `remaining` of the ranking. */
  function Extras(regions: seq<(string, nat)>, total: nat): (extras: seq<Share>)
    requires |regions| > 0 ==> TotalPopulation(regions) > 0
    ensures regions != [] ==> |extras| == Leftover(regions, total)
    ensures |extras| <= |regions| && extras == Ranked(regions, total)[..|extras|]
  {
    if regions == [] then []
    else
      LeftoverBounds(regions, total);
      Ranked(regions, total)[..Leftover(regions, total)]
  }

  /** How many of the shares belong to the region. */
  function Bonus(s: seq<Share>, region: string): nat
  {
    if s == [] then 0
    else Bonus(s[..|s| - 1], region) + (if s[|s| - 1].region == region then 1 else 0)
  }

  lemma BonusStep(s: seq<Share>, k: nat, region: string)
    requires k < |s|
    ensures Bonus(s[..k + 1], region) == Bonus(s[..k], region) + (if s[k].region == region then 1 else 0)
  {
    assert s[..k + 1][..k] == s[..k];
  }

  /** Quotas times the total population plus remainders make population times total. */
  lemma {:induction false} QuotasAndRemainders(regions: seq<(string, nat)>, total: nat, totalPopulation: nat)
    requires totalPopulation > 0
    ensures QuotaTotal(regions, total, totalPopulation) * totalPopulation + RemainderTotal(regions, total, totalPopulation)
            == TotalPopulation(regions) * total
    ensures RemainderTotal(regions, total, totalPopulation) < |regions| * totalPopulation || regions == []
    decreases |regions|
  {
    if regions != [] {
      var rest := regions[1..];
      QuotasAndRemainders(rest, total, totalPopulation);
      QuotaIsFloor(regions[0].1, total, totalPopulation);
      SumStep(Quota(regions[0].1, total, totalPopulation), Remainder(regions[0].1, total, totalPopulation), regions[0].1,
              QuotaTotal(rest, total, totalPopulation), RemainderTotal(rest, total, totalPopulation), TotalPopulation(rest),
              totalPopulation, total, |rest|);
    }
  }

  /** One region added to the sums of QuotasAndRemainders. */
  lemma SumStep(quota: int, rem: int, pop: int, quotas: int, rems: int, pops: int, totalPopulation: int, total: int, count: nat)
    requires quota * totalPopulation + rem == pop * total && 0 <= rem < totalPopulation
    requires quotas * totalPopulation + rems == pops * total
    requires rems < count * totalPopulation || (count == 0 && rems == 0)
    ensures (quota + quotas) * totalPopulation + (rem + rems) == (pop + pops) * total
    ensures rem + rems < (count + 1) * totalPopulation
  {
    assert (quota + quotas) * totalPopulation == quota * totalPopulation + quotas * totalPopulation;
    assert (pop + pops) * total == pop * total + pops * total;
    assert (count + 1) * totalPopulation == count * totalPopulation + totalPopulation;
  }

  /** Exact arithmetic: 0 <= left * n and left * n < count * n give 0 <= left < count. */
  lemma MultipleBounds(left: int, n: int, r: int, count: int)
    requires n > 0 && left * n == r && 0 <= r < count * n
    ensures 0 <= left < count
  {
  }

  /** With exact arithmetic, the leftover after the floors is in [0, number of regions). */
  lemma {:induction false} LeftoverBounds(regions: seq<(string, nat)>, total: nat)
    requires regions != [] && TotalPopulation(regions) > 0
    ensures 0 <= Leftover(regions, total) < |regions|
  {
    var pop := TotalPopulation(regions);
    QuotasAndRemainders(regions, total, pop);
    LeftoverArithmetic(total, QuotaTotal(regions, total, pop), RemainderTotal(regions, total, pop), pop, |regions|);
  }

  lemma LeftoverArithmetic(total: int, quotas: int, rems: int, pop: int, count: int)
    requires pop > 0 && quotas * pop + rems == pop * total && 0 <= rems < count * pop
    ensures 0 <= total - quotas < count
  {
    assert (total - quotas) * pop == rems;
    MultipleBounds(total - quotas, pop, rems, count);
  }

  /** Every ranked share is the share of its own region. */
  lemma {:induction false} RankedIsShare(regions: seq<(string, nat)>, total: nat, k: nat)
    requires |regions| > 0 ==> TotalPopulation(regions) > 0
    requires k < |Ranked(regions, total)|
    ensures var x := Ranked(regions, total)[k];
      x.index < |regions| && x == Shares(regions, total)[x.index]
  {
    var x := Ranked(regions, total)[k];
    assert x in multiset(Shares(regions, total));
    var j :| 0 <= j < |regions| && Shares(regions, total)[j] == x;
  }

  /** A ranking that holds a region's share once at most counts that region at most once. */
  lemma {:induction false} BonusIsMultiplicity(s: seq<Share>, x: Share)
    requires forall y :: y in s && y.region == x.region ==> y == x
    ensures Bonus(s, x.region) == multiset(s)[x]
    decreases |s|
  {
    if s != [] {
      BonusIsMultiplicity(s[..|s| - 1], x);
      assert s == s[..|s| - 1] + [s[|s| - 1]];
    }
  }

  lemma {:induction false} DistinctMultiplicity(s: seq<Share>, x: Share)
    requires DistinctIndices(s)
    ensures multiset(s)[x] <= 1
    decreases |s|
  {
    if s != [] {
      DistinctMultiplicity(s[1..], x);
      assert s == [s[0]] + s[1..];
      if s[0] == x {
        assert x !in s[1..];
      }
    }
  }

  /** The count of region i's share among the extras. */
  lemma {:induction false} ExtraCount(regions: seq<(string, nat)>, total: nat, i: nat)
    requires DistinctNames(regions) && i < |regions| && TotalPopulation(regions) > 0
    ensures var x := Shares(regions, total)[i];
      Bonus(Extras(regions, total), regions[i].0) == multiset(Extras(regions, total))[x] <= 1
  {
    var shares := Shares(regions, total);
    var x := shares[i];
    var extras := Extras(regions, total);
    OnlyShareOfRegion(regions, total, i);
    BonusIsMultiplicity(extras, x);
    ExtrasAtMostOnce(regions, total, x);
  }

  /** Among the extras, the only share named after region i is region i's share. */
  lemma {:induction false} OnlyShareOfRegion(regions: seq<(string, nat)>, total: nat, i: nat)
    requires DistinctNames(regions) && i < |regions| && TotalPopulation(regions) > 0
    ensures forall y :: y in Extras(regions, total) && y.region == regions[i].0 ==> y == Shares(regions, total)[i]
  {
    var extras := Extras(regions, total);
    forall y | y in extras && y.region == regions[i].0
      ensures y == Shares(regions, total)[i]
    {
      var k :| 0 <= k < |extras| && extras[k] == y;
      RankedIsShare(regions, total, k);
    }
  }

  /** No share occurs twice among the extras. */
  lemma {:induction false} ExtrasAtMostOnce(regions: seq<(string, nat)>, total: nat, x: Share)
    requires TotalPopulation(regions) > 0
    ensures multiset(Extras(regions, total))[x] <= 1
  {
    var shares := Shares(regions, total);
    var ranked := Ranked(regions, total);
    var extras := Extras(regions, total);
    assert ranked == extras + ranked[|extras|..];
    assert multiset(ranked) == multiset(extras) + multiset(ranked[|extras|..]);
    DistinctMultiplicity(shares, x);
  }

  /** Each region receives at most one of the leftover units. */
  lemma {:induction false} AtMostOneExtra(regions: seq<(string, nat)>, total: nat, i: nat)
    requires DistinctNames(regions) && i < |regions| && TotalPopulation(regions) > 0
    ensures Bonus(Extras(regions, total), regions[i].0) <= 1
  {
    ExtraCount(regions, total, i);
  }

  /**
   * The Hamilton property: a region that receives a leftover unit has a
   * larger fractional part than one that does not, or an equal one and an
   * earlier place in the dict.
   */
  lemma {:induction false} ExtrasGoToLargestRemainders(regions: seq<(string, nat)>, total: nat, i: nat, j: nat)
    requires DistinctNames(regions) && i < |regions| && j < |regions| && TotalPopulation(regions) > 0
    requires Bonus(Extras(regions, total), regions[i].0) == 1
    requires Bonus(Extras(regions, total), regions[j].0) == 0
    ensures var pop := TotalPopulation(regions);
      var ri := Remainder(regions[i].1, total, pop);
      var rj := Remainder(regions[j].1, total, pop);
      ri > rj || (ri == rj && i < j)
  {
    var a := ExtraPosition(regions, total, i);
    var b := RestPosition(regions, total, j);
    SortOrdered(Shares(regions, total));
  }

  /** A region that receives a unit has its share among the first Leftover places of the ranking. */
  lemma {:induction false} ExtraPosition(regions: seq<(string, nat)>, total: nat, i: nat) returns (a: nat)
    requires DistinctNames(regions) && i < |regions| && TotalPopulation(regions) > 0
    requires Bonus(Extras(regions, total), regions[i].0) == 1
    ensures a < |Extras(regions, total)| && Ranked(regions, total)[a] == Shares(regions, total)[i]
  {
    var extras := Extras(regions, total);
    ExtraCount(regions, total, i);
    assert Shares(regions, total)[i] in extras;
    a :| 0 <= a < |extras| && extras[a] == Shares(regions, total)[i];
  }

  /** A region that receives no unit has its share after the first Leftover places of the ranking. */
  lemma {:induction false} RestPosition(regions: seq<(string, nat)>, total: nat, j: nat) returns (b: nat)
    requires DistinctNames(regions) && j < |regions| && TotalPopulation(regions) > 0
    requires Bonus(Extras(regions, total), regions[j].0) == 0
    ensures |Extras(regions, total)| <= b < |regions| && Ranked(regions, total)[b] == Shares(regions, total)[j]
  {
    var shares := Shares(regions, total);
    var ranked := Ranked(regions, total);
    var extras := Extras(regions, total);
    ExtraCount(regions, total, j);
    assert shares[j] !in extras;
    assert shares[j] in multiset(ranked);
    b :| 0 <= b < |ranked| && ranked[b] == shares[j];
    assert forall c :: 0 <= c < |extras| ==> extras[c] == ranked[c];
  }

  /** Raising one region's entry by one raises the sum by one. */
  lemma {:induction false} SumAllocationBump(regions: seq<(string, nat)>, allocation: map<string, nat>, idx: nat)
    requires DistinctNames(regions) && idx < |regions| && Names(regions) <= allocation.Keys
    ensures var name := regions[idx].0;
      SumAllocation(regions, allocation[name := allocation[name] + 1]) == SumAllocation(regions, allocation) + 1
    decreases |regions|
  {
    var name := regions[idx].0;
    var bumped := allocation[name := allocation[name] + 1];
    if idx == 0 {
      SumAllocationElsewhere(regions[1..], allocation, name, allocation[name] + 1);
    } else {
      SumAllocationBump(regions[1..], allocation, idx - 1);
    }
  }

  /** An entry outside the regions does not enter their sum. */
  lemma {:induction false} SumAllocationElsewhere(regions: seq<(string, nat)>, allocation: map<string, nat>, name: string, v: nat)
    requires Names(regions) <= allocation.Keys && name !in Names(regions)
    ensures SumAllocation(regions, allocation[name := v]) == SumAllocation(regions, allocation)
    decreases |regions|
  {
    if regions != [] {
      assert regions[0].0 in Names(regions);
      SumAllocationElsewhere(regions[1..], allocation, name, v);
    }
  }

  /** A dict holding each region's quota sums to the quota total. */
  lemma {:induction false} SumOfQuotas(regions: seq<(string, nat)>, allocation: map<string, nat>, total: nat, totalPopulation: nat)
    requires totalPopulation > 0
    requires forall i :: 0 <= i < |regions| ==>
      regions[i].0 in allocation && allocation[regions[i].0] == Quota(regions[i].1, total, totalPopulation)
    ensures Names(regions) <= allocation.Keys
    ensures SumAllocation(regions, allocation) == QuotaTotal(regions, total, totalPopulation)
    decreases |regions|
  {
    if regions != [] {
      SumOfQuotas(regions[1..], allocation, total, totalPopulation);
    }
  }

  /**
   * allocate_hospitals_proportional: each region gets the floor of its
   * exact share, and the units that leaves over go one each to the
   * regions with the largest fractional parts. The result has the
   * regions' keys, gives each its floor or its floor plus one, and sums
   * to the total.
   */
  method AllocateHospitalsProportional(regions: seq<(string, nat)>, totalHospitals: nat) returns (allocation: map<string, nat>)
    requires DistinctNames(regions)
    requires |regions| > 0 ==> TotalPopulation(regions) > 0
    ensures allocation.Keys == Names(regions)
    ensures forall i :: 0 <= i < |regions| ==>
      allocation[regions[i].0] == Quota(regions[i].1, totalHospitals, TotalPopulation(regions))
                                  + Bonus(Extras(regions, totalHospitals), regions[i].0)
    ensures forall i :: 0 <= i < |regions| ==>
      var quota := Quota(regions[i].1, totalHospitals, TotalPopulation(regions));
      allocation[regions[i].0] == quota || allocation[regions[i].0] == quota + 1
    ensures |regions| > 0 ==> SumAllocation(regions, allocation) == totalHospitals
  {
    var fractionalAllocation;
    allocation, fractionalAllocation := FloorAllocation(regions, totalHospitals);
    var allocatedTotal := 0;
    if regions != [] {
      SumOfQuotas(regions, allocation, totalHospitals, TotalPopulation(regions));
      allocatedTotal := SumAllocation(regions, allocation);
      LeftoverBounds(regions, totalHospitals);
    }
    var remaining := totalHospitals - allocatedTotal;
    if remaining > 0 {
      var sortedRegions := SortShares(fractionalAllocation);
      forall k | 0 <= k < |sortedRegions|
        ensures sortedRegions[k].index < |regions| && sortedRegions[k].region == regions[sortedRegions[k].index].0
      {
        RankedIsShare(regions, totalHospitals, k);
      }
      allocation := HandOutLeftover(regions, allocation, sortedRegions, remaining);
      if regions != [] {
        assert sortedRegions[..Min(remaining, |sortedRegions|)] == Extras(regions, totalHospitals);
      }
    }
    forall j | 0 <= j < |regions|
      ensures var quota := Quota(regions[j].1, totalHospitals, TotalPopulation(regions));
        allocation[regions[j].0] == quota || allocation[regions[j].0] == quota + 1
    {
      AtMostOneExtra(regions, totalHospitals, j);
    }
  }

  /**
   * The state after the first i regions of the first loop: their floors
   * in the dict, and their shares, in order, in fractional_allocation.
   */
  predicate FloorsFirst(regions: seq<(string, nat)>, total: nat, allocation: map<string, nat>, fractional: seq<Share>, i: nat)
  {
    && i <= |regions| && (|regions| > 0 ==> TotalPopulation(regions) > 0)
    && allocation.Keys == Names(regions[..i])
    && |fractional| == i
    && forall j :: 0 <= j < i ==>
      && regions[j].0 in allocation
      && allocation[regions[j].0] == Quota(regions[j].1, total, TotalPopulation(regions))
      && fractional[j] == Share(regions[j].0, Remainder(regions[j].1, total, TotalPopulation(regions)), j)
  }

  /** Region i's floor and share move FloorsFirst on by one region. */
  lemma FloorStep(regions: seq<(string, nat)>, total: nat, allocation: map<string, nat>, fractional: seq<Share>, i: nat)
    requires DistinctNames(regions) && i < |regions|
    requires FloorsFirst(regions, total, allocation, fractional, i)
    ensures var p := TotalPopulation(regions);
      FloorsFirst(regions, total,
        allocation[regions[i].0 := Quota(regions[i].1, total, p)],
        fractional + [Share(regions[i].0, Remainder(regions[i].1, total, p), i)], i + 1)
  {
    forall j | 0 <= j < i
      ensures regions[j].0 != regions[i].0
    {
    }
    NamesStep(regions, i);
  }

  /** The first loop of allocate_hospitals_proportional: the floors, and the fractional parts in dict order. */
  method FloorAllocation(regions: seq<(string, nat)>, totalHospitals: nat)
    returns (allocation: map<string, nat>, fractionalAllocation: seq<Share>)
    requires DistinctNames(regions)
    requires |regions| > 0 ==> TotalPopulation(regions) > 0
    ensures allocation.Keys == Names(regions)
    ensures forall i :: 0 <= i < |regions| ==>
      allocation[regions[i].0] == Quota(regions[i].1, totalHospitals, TotalPopulation(regions))
    ensures fractionalAllocation == Shares(regions, totalHospitals)
  {
    var totalPopulation := TotalPopulation(regions);
    allocation := map[];
    fractionalAllocation := [];
    var i := 0;
    assert Names(regions[..0]) == {};
    while i < |regions|
      invariant FloorsFirst(regions, totalHospitals, allocation, fractionalAllocation, i)
    {
      var (region, population) := regions[i];
      var quota := Quota(population, totalHospitals, totalPopulation);
      FloorStep(regions, totalHospitals, allocation, fractionalAllocation, i);
      allocation := allocation[region := quota];
      fractionalAllocation := fractionalAllocation + [Share(region, Remainder(population, totalHospitals, totalPopulation), i)];
      i := i + 1;
    }
    assert regions[..i] == regions;
  }

  lemma NamesStep(regions: seq<(string, nat)>, i: nat)
    requires i < |regions|
    ensures Names(regions[..i + 1]) == Names(regions[..i]) + {regions[i].0}
  {
    assert forall j :: 0 <= j < i ==> regions[..i + 1][j] == regions[..i][j];
  }

  /** Each region holds its floor plus one unit per share of it among `handed`. */
  predicate HandedOut(regions: seq<(string, nat)>, floors: map<string, nat>, allocation: map<string, nat>, handed: seq<Share>)
  {
    forall j :: 0 <= j < |regions| ==>
      regions[j].0 in floors && regions[j].0 in allocation
      && allocation[regions[j].0] == floors[regions[j].0] + Bonus(handed, regions[j].0)
  }

  /**
   * The state after the first k ranked shares have had their unit: the
   * keys unchanged, each region at its floor plus its count among them,
   * and the sum raised by k.
   */
  predicate HandedOutFirst(regions: seq<(string, nat)>, floors: map<string, nat>, allocation: map<string, nat>, s: seq<Share>, k: nat)
  {
    && k <= |s|
    && floors.Keys == Names(regions) && allocation.Keys == floors.Keys
    && HandedOut(regions, floors, allocation, s[..k])
    && SumAllocation(regions, allocation) == SumAllocation(regions, floors) + k
  }

  /** Before the loop no share has had its unit. */
  lemma HandOutStart(regions: seq<(string, nat)>, floors: map<string, nat>, s: seq<Share>)
    requires floors.Keys == Names(regions)
    ensures HandedOutFirst(regions, floors, floors, s, 0)
  {
    forall j | 0 <= j < |regions| ensures regions[j].0 in Names(regions) {}
  }

  /** One more unit to the region of the next share moves HandedOutFirst on by one share. */
  lemma HandOutStep(regions: seq<(string, nat)>, floors: map<string, nat>, allocation: map<string, nat>, s: seq<Share>, k: nat)
    requires DistinctNames(regions) && k < |s|
    requires s[k].index < |regions| && s[k].region == regions[s[k].index].0
    requires HandedOutFirst(regions, floors, allocation, s, k)
    ensures s[k].region in allocation
    ensures HandedOutFirst(regions, floors, allocation[s[k].region := allocation[s[k].region] + 1], s, k + 1)
  {
    SumAllocationBump(regions, allocation, s[k].index);
    forall j | 0 <= j < |regions|
      ensures Bonus(s[..k + 1], regions[j].0) == Bonus(s[..k], regions[j].0) + (if s[k].region == regions[j].0 then 1 else 0)
    {
      BonusStep(s, k, regions[j].0);
    }
  }

  /**
   * The second loop of allocate_hospitals_proportional: walk the ranked
   * shares, one more unit to each, until `remaining` reaches 0.
   */
  method HandOutLeftover(regions: seq<(string, nat)>, floors: map<string, nat>, sortedRegions: seq<Share>, remaining: nat)
    returns (allocation: map<string, nat>)
    requires DistinctNames(regions) && floors.Keys == Names(regions)
    requires forall k :: 0 <= k < |sortedRegions| ==>
      sortedRegions[k].index < |regions| && sortedRegions[k].region == regions[sortedRegions[k].index].0
    ensures HandedOutFirst(regions, floors, allocation, sortedRegions, Min(remaining, |sortedRegions|))
  {
    allocation := floors;
    var left := remaining;
    var k := 0;
    HandOutStart(regions, floors, sortedRegions);
    while k < |sortedRegions|
      invariant k <= remaining && left == remaining - k
      invariant HandedOutFirst(regions, floors, allocation, sortedRegions, k)
    {
      if left == 0 {
        break;
      }
      var region := sortedRegions[k].region;
      HandOutStep(regions, floors, allocation, sortedRegions, k);
      allocation := allocation[region := allocation[region] + 1];
      left := left - 1;
      k := k + 1;
    }
    assert k == Min(remaining, |sortedRegions|);
  }

  // ------------------------------------------------------------ the assignment

  /** allocation.items() of a dict with the regions' keys, in the regions' order. */
  function Items(regions: seq<(string, nat)>, allocation: map<string, nat>): (items: seq<(string, nat)>)
    requires Names(regions) <= allocation.Keys
    ensures |items| == |regions|
  {
    seq(|regions|, i requires 0 <= i < |regions| =>
      assert regions[i].0 in Names(regions);
      (regions[i].0, allocation[regions[i].0]))
  }

  /** Where region i's slice begins: the sum of the counts before it. */
  function Start(allocation: seq<(string, nat)>, i: nat): nat
    requires i <= |allocation|
  {
    if i == 0 then 0 else allocation[0].1 + Start(allocation[1..], i - 1)
  }

  function TotalCount(allocation: seq<(string, nat)>): nat
  {
    Start(allocation, |allocation|)
  }

  /** The region whose slice holds position j of the shuffled list. */
  function RegionAt(allocation: seq<(string, nat)>, j: nat): string
    requires j < TotalCount(allocation)
  {
    if j < allocation[0].1 then allocation[0].0
    else RegionAt(allocation[1..], j - allocation[0].1)
  }

  lemma {:induction false} StartStep(allocation: seq<(string, nat)>, i: nat)
    requires i < |allocation|
    ensures Start(allocation, i + 1) == Start(allocation, i) + allocation[i].1
    decreases i
  {
    if i > 0 {
      StartStep(allocation[1..], i - 1);
    }
  }

  lemma {:induction false} StartBound(allocation: seq<(string, nat)>, i: nat)
    requires i <= |allocation|
    ensures Start(allocation, i) <= TotalCount(allocation)
    decreases i
  {
    if i > 0 {
      StartBound(allocation[1..], i - 1);
    }
  }

  /** Region i's slice is [Start(i), Start(i) + count_i): the slices are consecutive and do not overlap. */
  lemma {:induction false} SliceRegion(allocation: seq<(string, nat)>, i: nat, j: nat)
    requires i < |allocation|
    requires Start(allocation, i) <= j < Start(allocation, i) + allocation[i].1
    ensures j < TotalCount(allocation) && RegionAt(allocation, j) == allocation[i].0
    decreases i
  {
    StartStep(allocation, i);
    StartBound(allocation, i + 1);
    if i > 0 {
      SliceRegion(allocation[1..], i - 1, j - allocation[0].1);
    }
  }

  /** The items of an allocation count as many hospitals as its sum. */
  lemma {:induction false} ItemsTotal(regions: seq<(string, nat)>, allocation: map<string, nat>)
    requires Names(regions) <= allocation.Keys
    ensures TotalCount(Items(regions, allocation)) == SumAllocation(regions, allocation)
    decreases |regions|
  {
    if regions != [] {
      assert Names(regions[1..]) <= Names(regions) by {
        forall i | 0 <= i < |regions[1..]| ensures regions[1..][i].0 in Names(regions) {
          assert regions[1..][i] == regions[i + 1];
        }
      }
      ItemsTotal(regions[1..], allocation);
      assert Items(regions, allocation)[1..] == Items(regions[1..], allocation);
    }
  }

  predicate DistinctHospitals(hospitals: seq<string>)
  {
    forall a, b :: 0 <= a < b < |hospitals| ==> hospitals[a] != hospitals[b]
  }

  function FirstHospitals(hospitals: seq<string>, n: nat): set<string>
    requires n <= |hospitals|
  {
    set j | 0 <= j < n :: hospitals[j]
  }

  lemma {:induction false} FirstHospitalsCount(hospitals: seq<string>, n: nat)
    requires n <= |hospitals| && DistinctHospitals(hospitals)
    ensures |FirstHospitals(hospitals, n)| == n
    decreases n
  {
    if n > 0 {
      FirstHospitalsCount(hospitals, n - 1);
      assert FirstHospitals(hospitals, n) == FirstHospitals(hospitals, n - 1) + {hospitals[n - 1]};
    }
  }

  /**
   * random.shuffle(hospitals): the list is rearranged in place; the
   * permutation it lands on is the parameter `shuffled`.
   */
  method ShuffleInPlace(hospitals: array<string>, shuffled: seq<string>)
    requires |shuffled| == hospitals.Length && multiset(shuffled) == multiset(hospitals[..])
    modifies hospitals
    ensures hospitals[..] == shuffled && multiset(hospitals[..]) == multiset(old(hospitals[..]))
  {
    forall t | 0 <= t < hospitals.Length {
      hospitals[t] := shuffled[t];
    }
  }

  /**
   * assign_hospitals_to_regions: the list is shuffled in place (into the
   * given permutation), then region after region takes the next `count`
   * hospitals, the slice stopping at the end of the list. Hospital j of
   * the shuffled list goes to the region whose slice holds j, for the
   * first min(sum of counts, number of hospitals) positions, and no other
   * hospital is mapped.
   */
  method AssignHospitalsToRegions(hospitals: array<string>, allocation: seq<(string, nat)>, shuffled: seq<string>)
    returns (mapping: map<string, string>)
    requires |shuffled| == hospitals.Length && multiset(shuffled) == multiset(hospitals[..])
    modifies hospitals
    ensures hospitals[..] == shuffled
    ensures mapping.Keys == FirstHospitals(shuffled, Min(TotalCount(allocation), |shuffled|))
    ensures DistinctHospitals(shuffled) ==>
      forall j :: 0 <= j < Min(TotalCount(allocation), |shuffled|) ==> mapping[shuffled[j]] == RegionAt(allocation, j)
    ensures DistinctHospitals(shuffled) ==> |mapping| == Min(TotalCount(allocation), |shuffled|)
  {
    ShuffleInPlace(hospitals, shuffled);
    var n := hospitals.Length;
    mapping := map[];
    var currentIndex := 0;
    var i := 0;
    while i < |allocation|
      invariant i <= |allocation|
      invariant hospitals[..] == shuffled
      invariant currentIndex == Start(allocation, i) <= TotalCount(allocation)
      invariant mapping.Keys == FirstHospitals(shuffled, Min(currentIndex, n))
      invariant DistinctHospitals(shuffled) ==>
        forall j :: 0 <= j < Min(currentIndex, n) ==> mapping[shuffled[j]] == RegionAt(allocation, j)
    {
      var (region, count) := allocation[i];
      StartStep(allocation, i);
      StartBound(allocation, i + 1);
      var t := Min(currentIndex, n);
      var stop := Min(currentIndex + count, n);
      while t < stop
        invariant Min(currentIndex, n) <= t <= stop
        invariant hospitals[..] == shuffled
        invariant mapping.Keys == FirstHospitals(shuffled, t)
        invariant DistinctHospitals(shuffled) ==>
          forall j :: 0 <= j < t ==> mapping[shuffled[j]] == RegionAt(allocation, j)
      {
        SliceRegion(allocation, i, t);
        assert FirstHospitals(shuffled, t + 1) == FirstHospitals(shuffled, t) + {shuffled[t]};
        assert hospitals[t] == shuffled[t];
        mapping := mapping[hospitals[t] := region];
        t := t + 1;
      }
      currentIndex := currentIndex + count;
      i := i + 1;
    }
    if DistinctHospitals(shuffled) {
      FirstHospitalsCount(shuffled, Min(currentIndex, n));
    }
  }

  /**
   * The two steps together: the allocation's items, taken in region
   * order, cut exactly `total` positions, so the first min(total, number
   * of hospitals) hospitals are mapped.
   */
  lemma {:induction false} AllocationCutsTotal(regions: seq<(string, nat)>, allocation: map<string, nat>, total: nat)
    requires regions != [] && Names(regions) <= allocation.Keys
    requires SumAllocation(regions, allocation) == total
    ensures TotalCount(Items(regions, allocation)) == total
  {
    ItemsTotal(regions, allocation);
  }
}
