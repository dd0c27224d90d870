/**
 * The part of the Hadoop MapReduce framework the three stages touch: the
 * task context (named counters, the main output, MultipleOutputs side
 * outputs) and the shuffle that hands each reducer call one key with all
 * of that key's values.
 */
module Hadoop {

  /** A table of counters of one counter group; a counter never incremented reads 0. */
  type Counters = map<string, nat>

  function Count(counters: Counters, name: string): nat
  {
    if name in counters then counters[name] else 0
  }

  /** context.getCounter(group, name).increment(1). */
  function Incr(counters: Counters, name: string): (r: Counters)
    ensures Count(r, name) == Count(counters, name) + 1
    ensures forall other :: other != name ==> Count(r, other) == Count(counters, other)
  {
    counters[name := Count(counters, name) + 1]
  }

  /** One record written through MultipleOutputs: the named output and the line it holds. */
  datatype SideRecord = SideRecord(name: string, line: string)

  /**
   * The task context a mapper or reducer writes to: its counters, the
   * (key, value) pairs of the main output and the side records.
   */
  class Context<K, V> {
    var counters: Counters
    var output: seq<(K, V)>
    var side: seq<SideRecord>

    constructor ()
      ensures counters == map[] && output == [] && side == []
    {
      counters := map[];
      output := [];
      side := [];
    }

    method Increment(name: string)
      modifies this
      ensures counters == Incr(old(counters), name)
      ensures output == old(output) && side == old(side)
    {
      counters := Incr(counters, name);
    }

    /** context.write(key, value). */
    method Write(key: K, value: V)
      modifies this
      ensures output == old(output) + [(key, value)]
      ensures counters == old(counters) && side == old(side)
    {
      output := output + [(key, value)];
    }

    /** multipleOutputs.write(name, line, value); the numeric value beside the line is not kept. */
    method WriteSide(name: string, line: string)
      modifies this
      ensures side == old(side) + [SideRecord(name, line)]
      ensures counters == old(counters) && output == old(output)
    {
      side := side + [SideRecord(name, line)];
    }
  }

  /** The values paired with key k, in the order the pairs come. */
  function ValuesFor<K(==), V>(pairs: seq<(K, V)>, k: K): (vs: seq<V>)
    ensures |vs| <= |pairs|
    ensures (exists i :: 0 <= i < |pairs| && pairs[i].0 == k) <==> |vs| > 0
  {
    if pairs == [] then []
    else if pairs[0].0 == k then [pairs[0].1] + ValuesFor(pairs[1..], k)
    else
      assert forall i :: 1 <= i < |pairs| ==> pairs[i] == pairs[1..][i - 1];
      ValuesFor(pairs[1..], k)
  }

  /** The pairs whose key is not k, in order. */
  function Without<K(==), V>(pairs: seq<(K, V)>, k: K): (rest: seq<(K, V)>)
    ensures |rest| + |ValuesFor(pairs, k)| == |pairs|
    ensures forall i :: 0 <= i < |rest| ==> rest[i].0 != k && rest[i] in pairs
  {
    if pairs == [] then []
    else if pairs[0].0 == k then Without(pairs[1..], k)
    else [pairs[0]] + Without(pairs[1..], k)
  }

  /**
   * The shuffle: one group per distinct key, holding all values of that
   * key in their original order. Groups come in order of first appearance
   * of their key; Hadoop sorts the keys, an order no property below
   * depends on.
   */
  function Shuffle<K(==), V>(pairs: seq<(K, V)>): (groups: seq<(K, seq<V>)>)
    ensures forall g :: g in groups ==> |g.1| > 0
    decreases |pairs|
  {
    if pairs == [] then []
    else
      var k := pairs[0].0;
      assert pairs[0].0 == k;
      [(k, ValuesFor(pairs, k))] + Shuffle(Without(pairs, k))
  }

  /** The keys a shuffle hands out: each key of the pairs, and only those. */
  lemma {:induction false} ShuffleKeys<K, V>(pairs: seq<(K, V)>, k: K)
    ensures (exists g :: g in Shuffle(pairs) && g.0 == k) <==> (exists i :: 0 <= i < |pairs| && pairs[i].0 == k)
    decreases |pairs|
  {
    if pairs != [] {
      var k0 := pairs[0].0;
      var rest := Without(pairs, k0);
      ShuffleKeys(rest, k);
      if k != k0 && exists i :: 0 <= i < |pairs| && pairs[i].0 == k {
        var i :| 0 <= i < |pairs| && pairs[i].0 == k;
        WithoutKeeps(pairs, k0, i);
      }
    }
  }

  /** A pair whose key is not k survives Without(pairs, k). */
  lemma {:induction false} WithoutKeeps<K, V>(pairs: seq<(K, V)>, k: K, i: nat)
    requires i < |pairs| && pairs[i].0 != k
    ensures exists j :: 0 <= j < |Without(pairs, k)| && Without(pairs, k)[j] == pairs[i]
    decreases |pairs|
  {
    var tail := Without(pairs[1..], k);
    if i > 0 {
      WithoutKeeps(pairs[1..], k, i - 1);
      var j :| 0 <= j < |tail| && tail[j] == pairs[1..][i - 1];
      assert pairs[1..][i - 1] == pairs[i];
      if pairs[0].0 != k {
        assert Without(pairs, k) == [pairs[0]] + tail;
        assert Without(pairs, k)[j + 1] == pairs[i];
      } else {
        assert Without(pairs, k) == tail;
      }
    } else {
      assert Without(pairs, k) == [pairs[0]] + tail;
      assert Without(pairs, k)[0] == pairs[0];
    }
  }

  /** No group of the shuffle of the other keys' pairs has the first key. */
  lemma ShuffleRestAvoids<K, V>(pairs: seq<(K, V)>)
    requires pairs != []
    ensures forall m :: 0 <= m < |Shuffle(Without(pairs, pairs[0].0))| ==>
      Shuffle(Without(pairs, pairs[0].0))[m].0 != pairs[0].0
  {
    var k0 := pairs[0].0;
    var rest := Without(pairs, k0);
    forall m | 0 <= m < |Shuffle(rest)|
      ensures Shuffle(rest)[m].0 != k0
    {
      ShuffleKeys(rest, Shuffle(rest)[m].0);
      assert Shuffle(rest)[m] in Shuffle(rest);
    }
  }

  /** No two groups share a key. */
  predicate DistinctKeys<K(==), V>(groups: seq<(K, seq<V>)>)
  {
    forall a, b :: 0 <= a < |groups| && 0 <= b < |groups| && a != b ==> groups[a].0 != groups[b].0
  }

  /** The shuffle makes one group per key. */
  lemma {:induction false} ShuffleDistinct<K, V>(pairs: seq<(K, V)>)
    ensures DistinctKeys(Shuffle(pairs))
    decreases |pairs|
  {
    if pairs != [] {
      var k0 := pairs[0].0;
      var rest := Without(pairs, k0);
      var groups := Shuffle(pairs);
      var others := Shuffle(rest);
      assert groups == [(k0, ValuesFor(pairs, k0))] + others;
      ShuffleDistinct(rest);
      ShuffleRestAvoids(pairs);
      forall a, b | 0 <= a < |groups| && 0 <= b < |groups| && a != b
        ensures groups[a].0 != groups[b].0
      {
        if a == 0 {
          assert groups[b] == others[b - 1];
        } else if b == 0 {
          assert groups[a] == others[a - 1];
        } else {
          assert groups[a] == others[a - 1] && groups[b] == others[b - 1];
        }
      }
    }
  }

  /** Each key has one group only, and that group holds every value of the key. */
  lemma {:induction false} ShuffleGroup<K, V>(pairs: seq<(K, V)>, n: nat)
    requires n < |Shuffle(pairs)|
    ensures Shuffle(pairs)[n].1 == ValuesFor(pairs, Shuffle(pairs)[n].0)
    ensures forall m :: 0 <= m < |Shuffle(pairs)| && m != n ==> Shuffle(pairs)[m].0 != Shuffle(pairs)[n].0
    decreases |pairs|
  {
    var k0 := pairs[0].0;
    var rest := Without(pairs, k0);
    var groups := Shuffle(pairs);
    assert groups == [(k0, ValuesFor(pairs, k0))] + Shuffle(rest);
    if n == 0 {
      assert groups[0] == (k0, ValuesFor(pairs, k0));
    } else {
      ShuffleRestAvoids(pairs);
      ShuffleGroup(rest, n - 1);
      var g := Shuffle(rest)[n - 1];
      assert groups[n] == g;
      WithoutValues(pairs, k0, g.0);
      calc {
        groups[n].1;
        g.1;
        ValuesFor(rest, g.0);
        ValuesFor(pairs, g.0);
      }
    }
    ShuffleDistinct(pairs);
  }

  /** Removing the pairs of one key leaves the values of every other key as they were. */
  lemma {:induction false} WithoutValues<K, V>(pairs: seq<(K, V)>, k: K, other: K)
    requires other != k
    ensures ValuesFor(Without(pairs, k), other) == ValuesFor(pairs, other)
    decreases |pairs|
  {
    if pairs != [] {
      WithoutValues(pairs[1..], k, other);
      if pairs[0].0 != k {
        assert Without(pairs, k)[1..] == Without(pairs[1..], k);
      }
    }
  }

  /** Sum of a sequence of integers, taken from the left. */
  function SumInts(xs: seq<int>): int
  {
    if xs == [] then 0 else SumInts(xs[..|xs| - 1]) + xs[|xs| - 1]
  }

  lemma {:induction false} SumIntsAppend(xs: seq<int>, ys: seq<int>)
    ensures SumInts(xs + ys) == SumInts(xs) + SumInts(ys)
    decreases |ys|
  {
    if ys != [] {
      SumIntsAppend(xs, ys[..|ys| - 1]);
      assert (xs + ys)[..|xs + ys| - 1] == xs + ys[..|ys| - 1];
    } else {
      assert xs + ys == xs;
    }
  }

  lemma SumIntsCons(x: int, xs: seq<int>)
    ensures SumInts([x] + xs) == x + SumInts(xs)
  {
    SumIntsAppend([x], xs);
    assert SumInts([x]) == SumInts([]) + x;
  }

  /** The integer values of the pairs, in order. */
  function IntValues<K>(pairs: seq<(K, int)>): (vs: seq<int>)
    ensures |vs| == |pairs| && forall i :: 0 <= i < |pairs| ==> vs[i] == pairs[i].1
  {
    if pairs == [] then [] else [pairs[0].1] + IntValues(pairs[1..])
  }

  /** Sum of the per-group totals of a shuffle. */
  function GroupTotals<K>(groups: seq<(K, seq<int>)>): int
  {
    if groups == [] then 0 else SumInts(groups[0].1) + GroupTotals(groups[1..])
  }

  /** The values of one key and the pairs of the other keys together carry every value once. */
  lemma {:induction false} SplitTotal<K>(pairs: seq<(K, int)>, k: K)
    ensures SumInts(ValuesFor(pairs, k)) + SumInts(IntValues(Without(pairs, k))) == SumInts(IntValues(pairs))
    decreases |pairs|
  {
    if pairs != [] {
      SplitTotal(pairs[1..], k);
      SumIntsCons(pairs[0].1, IntValues(pairs[1..]));
      assert IntValues(pairs) == [pairs[0].1] + IntValues(pairs[1..]);
      if pairs[0].0 == k {
        SumIntsCons(pairs[0].1, ValuesFor(pairs[1..], k));
      } else {
        assert IntValues(Without(pairs, k)) == [pairs[0].1] + IntValues(Without(pairs[1..], k));
        SumIntsCons(pairs[0].1, IntValues(Without(pairs[1..], k)));
      }
    }
  }

  /** Reducers that sum their group see, between them, every value exactly once. */
  lemma {:induction false} ShuffleTotal<K>(pairs: seq<(K, int)>)
    ensures GroupTotals(Shuffle(pairs)) == SumInts(IntValues(pairs))
    decreases |pairs|
  {
    if pairs != [] {
      var k := pairs[0].0;
      ShuffleTotal(Without(pairs, k));
      SplitTotal(pairs, k);
    }
  }
}
