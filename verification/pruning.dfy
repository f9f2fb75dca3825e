/** The redundancy test of the rater, stated on the counter (key to count)
    and the representative multitag of each key, independently of the order
    in which the rater's loops visit keys and sub-windows. */
module Pruning {
  import opened Tags
  import opened Counts

  /** The test at the heart of the pruning loop, with `relative_freq` the
      ratio of the multitag's count to its sub-window's count. On integer
      counts it is exact: `relative_freq == 1` means equal counts and
      `relative_freq >= 0.5` means twice the count reaches the sub-window's. */
  predicate Keeps(cnt: nat, cntSub: nat, proper: bool, score: real): (keep: bool)
    requires cntSub > 0
    ensures keep <==> (cnt == cntSub && proper) || (2 * cnt >= cntSub && score > 0.0)
  {
    RatioTests(cnt as real, cntSub as real);
    var relativeFreq := cnt as real / cntSub as real;
    (relativeFreq == 1.0 && proper) || (relativeFreq >= 0.5 && score > 0.0)
  }

  /** The two comparisons of a ratio, without division. */
  lemma RatioTests(c: real, d: real)
    requires d > 0.0
    ensures c / d == 1.0 <==> c == d
    ensures c / d >= 0.5 <==> 2.0 * c >= d
  {
    Scale(c / d, d, 1.0, c);
    Scale(c / d, d, 0.5, c);
  }

  /** Scaling by a positive factor keeps comparisons. */
  lemma Scale(q: real, d: real, k: real, c: real)
    requires d > 0.0 && q * d == c
    ensures q >= k <==> c >= k * d
    ensures q == k <==> c == k * d
  {
    if q > k {
      assert q * d - k * d == (q - k) * d;
    } else if q < k {
      assert k * d - q * d == (k - q) * d;
    }
  }

  /** The counter has a positive count for every sub-window `words[i:i+j]` of
      every key, so that `relative_freq` never divides by zero. */
  ghost predicate SubsCounted(counts: map<seq<string>, nat>) {
    forall t, i: nat, j: nat :: t in counts && i < |t| && 1 <= j < |t| ==>
      SubKey(t, i, j) in counts && counts[SubKey(t, i, j)] > 0
  }

  /** The counter and the representatives have the same keys. */
  predicate SameKeys(counts: map<seq<string>, nat>, reps: map<seq<string>, MultiTag>) {
    counts.Keys == reps.Keys
  }

  /** The check of key `t` against its sub-window `(i, j)` keeps `t`. */
  ghost predicate Supports(counts: map<seq<string>, nat>, reps: map<seq<string>, MultiTag>,
                           t: seq<string>, i: nat, j: nat)
    requires SubsCounted(counts) && SameKeys(counts, reps)
    requires t in counts && i < |t| && 1 <= j < |t|
  {
    Keeps(counts[t], counts[SubKey(t, i, j)], reps[t].proper, reps[t].score)
  }

  /** The check of key `t` against its sub-window `(i, j)` discards `d`: the
      sub-window when the check keeps `t`, and `t` itself otherwise. */
  ghost predicate DropsAt(counts: map<seq<string>, nat>, reps: map<seq<string>, MultiTag>,
                          t: seq<string>, i: nat, j: nat, d: seq<string>)
    requires SubsCounted(counts) && SameKeys(counts, reps)
    requires t in counts && i < |t| && 1 <= j < |t|
  {
    if Supports(counts, reps, t, i, j) then d == SubKey(t, i, j) else d == t
  }

  /** Some check made before `(i, j)` while processing `t` discards `d`. */
  ghost predicate DroppedBefore(counts: map<seq<string>, nat>, reps: map<seq<string>, MultiTag>,
                                t: seq<string>, i: nat, j: nat, d: seq<string>)
    requires SubsCounted(counts) && SameKeys(counts, reps) && t in counts
  {
    exists i': nat, j': nat :: i' < |t| && 1 <= j' < |t| && (i' < i || (i' == i && j' < j))
      && DropsAt(counts, reps, t, i', j', d)
  }

  /** Some check made while processing `t` discards `d`. */
  ghost predicate DroppedBy(counts: map<seq<string>, nat>, reps: map<seq<string>, MultiTag>,
                            t: seq<string>, d: seq<string>)
    requires SubsCounted(counts) && SameKeys(counts, reps) && t in counts
  {
    DroppedBefore(counts, reps, t, |t|, 0, d)
  }

  /** The keys the rater returns: those whose representative string is longer
      than one character and that no check discards. */
  ghost function Survivors(counts: map<seq<string>, nat>, reps: map<seq<string>, MultiTag>): (s: set<seq<string>>)
    requires SubsCounted(counts) && SameKeys(counts, reps)
    ensures s <= counts.Keys
    ensures forall d :: d in s ==> |reps[d].str| > 1
  {
    set d | d in counts && |reps[d].str| > 1 && forall t :: t in counts ==> !DroppedBy(counts, reps, t, d)
  }

  /** One more check extends what has been discarded by exactly what it discards. */
  lemma DroppedBeforeStep(counts: map<seq<string>, nat>, reps: map<seq<string>, MultiTag>,
                          t: seq<string>, i: nat, j: nat, d: seq<string>)
    requires SubsCounted(counts) && SameKeys(counts, reps)
    requires t in counts && i < |t| && 1 <= j < |t|
    ensures DroppedBefore(counts, reps, t, i, j + 1, d)
        <==> DroppedBefore(counts, reps, t, i, j, d) || DropsAt(counts, reps, t, i, j, d)
  {
    if DroppedBefore(counts, reps, t, i, j + 1, d) {
      var i': nat, j': nat :| i' < |t| && 1 <= j' < |t| && (i' < i || (i' == i && j' < j + 1))
        && DropsAt(counts, reps, t, i', j', d);
      if !(i' == i && j' == j) {
        assert DroppedBefore(counts, reps, t, i, j, d);
      }
    }
  }

  /** Finishing the sub-windows starting at `i` is starting those at `i + 1`. */
  lemma DroppedBeforeRow(counts: map<seq<string>, nat>, reps: map<seq<string>, MultiTag>,
                         t: seq<string>, i: nat, d: seq<string>)
    requires SubsCounted(counts) && SameKeys(counts, reps)
    requires t in counts && 1 <= |t|
    ensures DroppedBefore(counts, reps, t, i, |t|, d) <==> DroppedBefore(counts, reps, t, i + 1, 1, d)
  {
  }

  /** A key is discarded as soon as one check discards it, whatever the order of
      the checks: the outcome is a set difference. */
  lemma SurvivorsAreUndiscarded(counts: map<seq<string>, nat>, reps: map<seq<string>, MultiTag>,
                                d: seq<string>)
    requires SubsCounted(counts) && SameKeys(counts, reps)
    ensures d in Survivors(counts, reps) <==>
      && d in counts && |reps[d].str| > 1
      && (forall t, i: nat, j: nat :: t in counts && i < |t| && 1 <= j < |t| && SubKey(t, i, j) == d
            ==> !Supports(counts, reps, t, i, j))
      && (d !in counts || forall i: nat, j: nat :: i < |d| && 1 <= j < |d| ==> Supports(counts, reps, d, i, j))
  {
    if d in counts {
      if forall t :: t in counts ==> !DroppedBy(counts, reps, t, d) {
        forall i: nat, j: nat | i < |d| && 1 <= j < |d|
          ensures Supports(counts, reps, d, i, j)
        {
          if !Supports(counts, reps, d, i, j) {
            assert DropsAt(counts, reps, d, i, j, d);
            assert DroppedBy(counts, reps, d, d);
          }
        }
        forall t, i: nat, j: nat | t in counts && i < |t| && 1 <= j < |t| && SubKey(t, i, j) == d
          ensures !Supports(counts, reps, t, i, j)
        {
          if Supports(counts, reps, t, i, j) {
            assert DropsAt(counts, reps, t, i, j, d);
            assert DroppedBy(counts, reps, t, d);
          }
        }
      }
    }
  }
}
