/** What the rater keeps per key: its count, the first multitag generated
    with it, and the surface string most often seen for it. */
module Clusters {
  import opened Tags
  import opened Counts

  /** The position of the first occurrence of `key`. */
  function FirstIndex(ks: seq<seq<string>>, key: seq<string>): (n: nat)
    requires key in ks
    ensures n < |ks| && ks[n] == key
    ensures forall n' :: 0 <= n' < n ==> ks[n'] != key
  {
    if ks[0] == key then 0 else 1 + FirstIndex(ks[1..], key)
  }

  /** Appending does not move a first occurrence. */
  lemma {:induction false} FirstIndexAppend(ks: seq<seq<string>>, x: seq<string>, key: seq<string>)
    requires key in ks
    ensures FirstIndex(ks + [x], key) == FirstIndex(ks, key)
  {
    if ks[0] != key {
      assert (ks + [x])[1..] == ks[1..] + [x];
      FirstIndexAppend(ks[1..], x, key);
    }
  }

  /** `clusters[key][surface]`: how many multitags with these stems have this string. */
  function SurfCount(ms: seq<MultiTag>, key: seq<string>, surface: string): (c: nat)
    ensures c <= |ms|
  {
    if ms == [] then 0
    else SurfCount(ms[..|ms| - 1], key, surface)
         + (if ms[|ms| - 1].stems == key && ms[|ms| - 1].str == surface then 1 else 0)
  }

  /** A string seen with the key is counted at least once. */
  lemma {:induction false} SurfCountPositive(ms: seq<MultiTag>, n: nat)
    requires n < |ms|
    ensures SurfCount(ms, ms[n].stems, ms[n].str) >= 1
  {
    if n < |ms| - 1 {
      SurfCountPositive(ms[..|ms| - 1], n);
    }
  }

  /** Scanning the first `n` multitags, the first string met whose count for
      `key` exceeds that of every string met before it. */
  function BestUpTo(ms: seq<MultiTag>, key: seq<string>, n: nat): (b: Option<string>)
    requires n <= |ms|
  {
    if n == 0 then None
    else
      var b := BestUpTo(ms, key, n - 1);
      var m := ms[n - 1];
      if m.stems == key && (b.None? || SurfCount(ms, key, m.str) > SurfCount(ms, key, b.value))
      then Some(m.str) else b
  }

  datatype Option<T> = None | Some(value: T)

  /** The scan finds a string seen with `key` as soon as one is met, and its
      count is maximal among the strings met so far. */
  lemma {:induction false} BestUpToSpec(ms: seq<MultiTag>, key: seq<string>, n: nat)
    requires n <= |ms|
    ensures var b := BestUpTo(ms, key, n);
      && (b.Some? <==> key in StemsOf(ms[..n]))
      && (b.Some? ==> exists k :: 0 <= k < n && ms[k].stems == key && ms[k].str == b.value)
      && (b.Some? ==> forall k :: 0 <= k < n && ms[k].stems == key ==>
                        SurfCount(ms, key, ms[k].str) <= SurfCount(ms, key, b.value))
  {
    if n > 0 {
      BestUpToSpec(ms, key, n - 1);
      assert StemsOf(ms[..n]) == StemsOf(ms[..n - 1]) + [ms[n - 1].stems];
      var prev, b, m := BestUpTo(ms, key, n - 1), BestUpTo(ms, key, n), ms[n - 1];
      if b.Some? {
        forall k | 0 <= k < n && ms[k].stems == key
          ensures SurfCount(ms, key, ms[k].str) <= SurfCount(ms, key, b.value)
        {
          if k < n - 1 && b != prev {
            assert StemsOf(ms[..n - 1])[k] == key;
            assert SurfCount(ms, key, ms[k].str) <= SurfCount(ms, key, prev.value);
          }
        }
      }
    }
  }

  /** `clusters[key].most_common(1)[0][0]`: a string seen with `key` whose
      count is maximal (ties go to the string seen first). */
  function BestSurface(ms: seq<MultiTag>, key: seq<string>): (s: string)
    requires key in StemsOf(ms)
    ensures exists k :: 0 <= k < |ms| && ms[k].stems == key && ms[k].str == s
    ensures forall k :: 0 <= k < |ms| && ms[k].stems == key ==> SurfCount(ms, key, ms[k].str) <= SurfCount(ms, key, s)
  {
    BestUpToSpec(ms, key, |ms|);
    assert ms[..|ms|] == ms;
    BestUpTo(ms, key, |ms|).value
  }

  /** `Counter(multitags)`: each key with its number of multitags. */
  function CountMap(ms: seq<MultiTag>): (counts: map<seq<string>, nat>)
    ensures counts.Keys == set k | k in StemsOf(ms)
    ensures forall k :: k in counts ==> 1 <= counts[k] <= |ms|
  {
    map k | k in StemsOf(ms) :: CountIn(StemsOf(ms), k)
  }

  /** The multitag the counter holds for each key (the first one generated),
      with its string replaced by the key's most common string. */
  function RepMap(ms: seq<MultiTag>): (reps: map<seq<string>, MultiTag>)
    ensures reps.Keys == set k | k in StemsOf(ms)
    ensures forall k :: k in reps ==> reps[k].stems == k
  {
    map k | k in StemsOf(ms) :: ms[FirstIndex(StemsOf(ms), k)].(str := BestSurface(ms, k))
  }
}
