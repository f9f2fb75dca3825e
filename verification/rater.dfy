/** The rater: term-frequency ratings of unit tags, generation of multitags,
    stem-keyed counting, choice of displayed strings, redundancy pruning and
    the final ordering by score. */
module Rating {
  import opened Text
  import opened Tags
  import opened Windows
  import opened Counts
  import opened Pruning
  import opened Clusters

  /** `term_count[t]` for a unit tag: how many tags share its stem. */
  function Occurrences(tags: seq<Tag>, stem: string): (c: nat)
    ensures c <= |tags|
    ensures c > 0 <==> exists k :: 0 <= k < |tags| && tags[k].stem == stem
  {
    if tags == [] then 0
    else
      var init := DropLast(tags);
      Occurrences(init, stem) + (if tags[|tags| - 1].stem == stem then 1 else 0)
  }

  /** All tags but the last. */
  function DropLast(tags: seq<Tag>): (init: seq<Tag>)
    requires tags != []
    ensures |init| == |tags| - 1 && forall k :: 0 <= k < |init| ==> init[k] == tags[k]
  {
    tags[..|tags| - 1]
  }

  /** `weights.get(stem, 1.0)`. */
  function Weight(weights: map<string, real>, stem: string): real {
    if stem in weights then weights[stem] else 1.0
  }

  /** A count taken as a fraction of a total, scaled by a weight. */
  function Tally(count: nat, total: nat, weight: real): real
    requires total > 0
  {
    count as real / total as real * weight
  }

  /** The rating of a unit tag with this stem: its relative frequency among
      the tags, scaled by the stem's weight. */
  function UnitRating(tags: seq<Tag>, weights: map<string, real>, stem: string): real
    requires |tags| > 0
  {
    Tally(Occurrences(tags, stem), |tags|, Weight(weights, stem))
  }

  /** The unit tags after the rating loop: only the ratings change. */
  function RatedUnits(tags: seq<Tag>, weights: map<string, real>): (r: seq<Tag>)
    ensures |r| == |tags|
    ensures forall k :: 0 <= k < |r| ==>
      r[k].str == tags[k].str && r[k].stem == tags[k].stem && r[k].proper == tags[k].proper && r[k].terminal == tags[k].terminal
  {
    seq(|tags|, k requires 0 <= k < |tags| => tags[k].(rating := UnitRating(tags, weights, tags[k].stem)))
  }

  /** Weights as the rater expects them: never negative. */
  predicate NonNegative(weights: map<string, real>) {
    forall s :: s in weights ==> weights[s] >= 0.0
  }

  /** Tags with equal stems get equal ratings; a rating is the stem's relative
      frequency, in (0, 1], when the stem has no weight, and lies between 0
      and the weight otherwise. */
  lemma UnitRatingBounds(tags: seq<Tag>, weights: map<string, real>, a: nat, b: nat)
    requires a < |tags| && b < |tags| && NonNegative(weights)
    ensures var r := RatedUnits(tags, weights);
      && r[a].str == tags[a].str && r[a].stem == tags[a].stem
      && r[a].proper == tags[a].proper && r[a].terminal == tags[a].terminal
      && (tags[a].stem == tags[b].stem ==> r[a].rating == r[b].rating)
      && (tags[a].stem !in weights ==> 0.0 < r[a].rating <= 1.0)
      && (tags[a].stem in weights ==> 0.0 <= r[a].rating <= weights[tags[a].stem])
  {
    var c, n := Occurrences(tags, tags[a].stem), |tags|;
    FractionBounds(c, n);
    var f := c as real / n as real;
    var w := Weight(weights, tags[a].stem);
    var rating := RatedUnits(tags, weights)[a].rating;
    assert rating == f * w;
    ScaledBounds(f, w, rating);
  }

  /** A count out of at least as many is a fraction in (0, 1]. */
  lemma FractionBounds(c: nat, n: nat)
    requires 1 <= c <= n
    ensures 0.0 < c as real / n as real <= 1.0
  {
    var f := c as real / n as real;
    assert f * n as real == c as real;
  }

  /** A fraction of a non-negative weight lies between 0 and the weight. */
  lemma ScaledBounds(f: real, w: real, p: real)
    requires 0.0 < f <= 1.0 && w >= 0.0 && p == f * w
    ensures 0.0 <= p <= w
  {
    assert w - p == (1.0 - f) * w;
  }

  /** Rated unit tags are never negative when the weights are not. */
  lemma RatedNonNegative(tags: seq<Tag>, weights: map<string, real>)
    requires NonNegative(weights)
    ensures forall q :: 0 <= q < |tags| ==> RatedUnits(tags, weights)[q].rating >= 0.0
  {
    forall q | 0 <= q < |tags|
      ensures RatedUnits(tags, weights)[q].rating >= 0.0
    {
      UnitRatingBounds(tags, weights, q, q);
    }
  }

  /** The counter of generated multitags has a positive count for every
      sub-window of every key, and the relative frequency lies in (0, 1]: the
      division in the pruning loop never divides by zero. */
  lemma GeneratedSubsCounted(tags: seq<Tag>, multitagSize: int, root: (real, nat) -> real)
    ensures var counts := CountMap(Multitags(tags, multitagSize, root));
      && SubsCounted(counts)
      && forall t, i: nat, j: nat :: t in counts && i < |t| && 1 <= j < |t| ==>
           && 0 < counts[t] <= counts[SubKey(t, i, j)]
           && 0.0 < counts[t] as real / counts[SubKey(t, i, j)] as real <= 1.0
  {
    var ms := Multitags(tags, multitagSize, root);
    var counts := CountMap(ms);
    forall t, i: nat, j: nat | t in counts && i < |t| && 1 <= j < |t|
      ensures SubKey(t, i, j) in counts && 0 < counts[t] <= counts[SubKey(t, i, j)]
      ensures 0.0 < counts[t] as real / counts[SubKey(t, i, j)] as real <= 1.0
    {
      SubWindowCount(tags, multitagSize, root, t, i, j);
      FractionBounds(counts[t], counts[SubKey(t, i, j)]);
    }
  }

  /** The representative multitag of each key, after the rating loop and
      the choice of strings. */
  function Reps(tags: seq<Tag>, weights: map<string, real>, multitagSize: int, root: (real, nat) -> real): map<seq<string>, MultiTag> {
    RepMap(Multitags(RatedUnits(tags, weights), multitagSize, root))
  }

  /** The keys the rater keeps after pruning. */
  ghost function Best(tags: seq<Tag>, weights: map<string, real>, multitagSize: int, root: (real, nat) -> real): set<seq<string>> {
    var ms := Multitags(RatedUnits(tags, weights), multitagSize, root);
    GeneratedSubsCounted(RatedUnits(tags, weights), multitagSize, root);
    Survivors(CountMap(ms), RepMap(ms))
  }

  /** Every key of a generated multitag is a sequence of words, so keying by
      the sequence is keying by the space-joined stem string. */
  lemma KeysAreWords(tags: seq<Tag>, multitagSize: int, root: (real, nat) -> real, key: seq<string>)
    requires forall q :: 0 <= q < |tags| ==> IsWord(tags[q].stem)
    requires key in StemsOf(Multitags(tags, multitagSize, root))
    ensures forall n :: 0 <= n < |key| ==> IsWord(key[n])
  {
    MultitagKeys(tags, multitagSize, root);
    var ks := KeySeq(tags, Spans(tags, multitagSize));
    var k :| 0 <= k < |ks| && ks[k] == key;
  }

  /** Appending one key adds one to its count and nothing to the others. */
  lemma CountSnoc(ks: seq<seq<string>>, x: seq<string>, key: seq<string>)
    ensures CountIn(ks + [x], key) == CountIn(ks, key) + (if x == key then 1 else 0)
  {
    assert (ks + [x])[..|ks|] == ks;
  }

  /** `counts` holds the count of every key of `ks` and nothing else. */
  ghost predicate Counted(ks: seq<seq<string>>, counts: map<seq<string>, nat>) {
    && (forall key :: key in counts <==> key in ks)
    && forall key :: key in counts ==> counts[key] == CountIn(ks, key)
  }

  /** `firsts` holds, for every key of `ks`, the multitag at its first position. */
  ghost predicate HoldsFirsts(ks: seq<seq<string>>, ms: seq<MultiTag>, firsts: map<seq<string>, MultiTag>)
    requires |ks| <= |ms|
  {
    && (forall key :: key in firsts <==> key in ks)
    && forall key :: key in firsts ==> firsts[key] == ms[FirstIndex(ks, key)]
  }

  /** One step of the counter. */
  lemma CountedSnoc(ks: seq<seq<string>>, counts: map<seq<string>, nat>, key: seq<string>)
    requires Counted(ks, counts)
    ensures Counted(ks + [key], if key in counts then counts[key := counts[key] + 1] else counts[key := 1])
  {
    forall key' {
      CountSnoc(ks, key, key');
    }
  }

  /** The counter keeps the object it met first for each key. */
  lemma FirstsSnoc(ks: seq<seq<string>>, ms: seq<MultiTag>, firsts: map<seq<string>, MultiTag>)
    requires |ks| < |ms| && HoldsFirsts(ks, ms, firsts)
    ensures var key := ms[|ks|].stems;
      HoldsFirsts(ks + [key], ms, if key in firsts then firsts else firsts[key := ms[|ks|]])
  {
    var key := ms[|ks|].stems;
    forall key' | key' in ks {
      FirstIndexAppend(ks, key, key');
    }
  }

  /** A counter that counted every key of the multitags is their `CountMap`. */
  lemma CountedIsCountMap(ms: seq<MultiTag>, counts: map<seq<string>, nat>)
    requires Counted(StemsOf(ms), counts)
    ensures counts == CountMap(ms)
  {
  }

  /** `collections.Counter(multitags)`: the count of each key, and the first
      multitag generated with it, which is the object the counter holds. */
  method CountMultitags(ms: seq<MultiTag>) returns (counts: map<seq<string>, nat>, firsts: map<seq<string>, MultiTag>)
    ensures counts == CountMap(ms)
    ensures firsts.Keys == counts.Keys
    ensures forall key :: key in firsts ==> firsts[key] == ms[FirstIndex(StemsOf(ms), key)]
  {
    counts, firsts := map[], map[];
    ghost var ks: seq<seq<string>> := [];
    for k := 0 to |ms|
      invariant ks == StemsOf(ms[..k])
      invariant Counted(ks, counts)
      invariant HoldsFirsts(ks, ms, firsts)
    {
      var key := ms[k].stems;
      CountedSnoc(ks, counts, key);
      FirstsSnoc(ks, ms, firsts);
      if key in counts {
        counts := counts[key := counts[key] + 1];
      } else {
        counts := counts[key := 1];
        firsts := firsts[key := ms[k]];
      }
      ks := ks + [key];
      assert ks == StemsOf(ms[..k + 1]);
    }
    assert ms[..|ms|] == ms;
    CountedIsCountMap(ms, counts);
  }

  /** `clusters[key][surface]`, with the defaultdict of Counters read as 0
      where nothing was counted. */
  function Cluster(clusters: map<seq<string>, map<string, nat>>, key: seq<string>, surface: string): nat {
    if key in clusters then Get(clusters[key], surface) else 0
  }

  /** `clusters` counts the strings of each key among the multitags `ms`. */
  ghost predicate Clustered(ms: seq<MultiTag>, clusters: map<seq<string>, map<string, nat>>) {
    forall key, surface :: Cluster(clusters, key, surface) == SurfCount(ms, key, surface)
  }

  /** One step of the cluster loop. */
  lemma ClusteredSnoc(ms: seq<MultiTag>, m: MultiTag, clusters: map<seq<string>, map<string, nat>>)
    requires Clustered(ms, clusters)
    ensures var c := if m.stems in clusters then clusters[m.stems] else map[];
      Clustered(ms + [m], clusters[m.stems := c[m.str := Get(c, m.str) + 1]])
  {
    var c := if m.stems in clusters then clusters[m.stems] else map[];
    var clusters' := clusters[m.stems := c[m.str := Get(c, m.str) + 1]];
    forall key, surface
      ensures Cluster(clusters', key, surface) == SurfCount(ms + [m], key, surface)
    {
      assert (ms + [m])[..|ms|] == ms;
    }
  }

  /** `best` holds, for each key met among the first `k` multitags, the string
      the scan has chosen so far. */
  ghost predicate ScannedUpTo(ms: seq<MultiTag>, k: nat, best: map<seq<string>, string>)
    requires k <= |ms|
  {
    forall key :: BestUpTo(ms, key, k) == if key in best then Some(best[key]) else None
  }

  /** The scanned choices, put on the counter's objects, are `RepMap`. */
  lemma ScannedIsRepMap(ms: seq<MultiTag>, firsts: map<seq<string>, MultiTag>, best: map<seq<string>, string>)
    requires firsts.Keys == set key | key in StemsOf(ms)
    requires forall key :: key in firsts ==> firsts[key] == ms[FirstIndex(StemsOf(ms), key)]
    requires ScannedUpTo(ms, |ms|, best)
    ensures forall key :: key in firsts ==> key in best
    ensures (map key | key in firsts :: firsts[key].(str := best[key])) == RepMap(ms)
  {
    forall key | key in firsts
      ensures key in best && best[key] == BestSurface(ms, key)
    {
      BestUpToSpec(ms, key, |ms|);
      assert ms[..|ms|] == ms;
    }
  }

  /** The cluster loop and the `most_common` choice: every counted multitag
      gets the string seen most often with its key. */
  method ChooseSurfaces(ms: seq<MultiTag>, firsts: map<seq<string>, MultiTag>) returns (reps: map<seq<string>, MultiTag>)
    requires firsts.Keys == set key | key in StemsOf(ms)
    requires forall key :: key in firsts ==> firsts[key] == ms[FirstIndex(StemsOf(ms), key)]
    ensures reps == RepMap(ms)
  {
    var clusters: map<seq<string>, map<string, nat>> := map[];
    for k := 0 to |ms|
      invariant Clustered(ms[..k], clusters)
    {
      var m := ms[k];
      ClusteredSnoc(ms[..k], m, clusters);
      var c := if m.stems in clusters then clusters[m.stems] else map[];
      clusters := clusters[m.stems := c[m.str := Get(c, m.str) + 1]];
      assert ms[..k + 1] == ms[..k] + [m];
    }
    assert ms[..|ms|] == ms;
    var best: map<seq<string>, string> := map[];
    for k := 0 to |ms|
      invariant ScannedUpTo(ms, k, best)
    {
      var m := ms[k];
      if m.stems !in best || Cluster(clusters, m.stems, m.str) > Cluster(clusters, m.stems, best[m.stems]) {
        best := best[m.stems := m.str];
      }
    }
    ScannedIsRepMap(ms, firsts, best);
    reps := map key | key in firsts :: firsts[key].(str := best[key]);
  }

  /** No key already processed discards `d`. */
  ghost predicate Undropped(counts: map<seq<string>, nat>, reps: map<seq<string>, MultiTag>,
                            done: set<seq<string>>, d: seq<string>)
    requires SubsCounted(counts) && SameKeys(counts, reps) && done <= counts.Keys
  {
    forall t :: t in done ==> !DroppedBy(counts, reps, t, d)
  }

  /** The state of the checks of key `t` before check `(i, j)`: a key is kept
      exactly when it was there before and no check made so far discarded it. */
  ghost predicate CheckState(counts: map<seq<string>, nat>, reps: map<seq<string>, MultiTag>,
                             t: seq<string>, i: nat, j: nat, before: set<seq<string>>, kept: set<seq<string>>)
    requires SubsCounted(counts) && SameKeys(counts, reps) && t in counts
  {
    forall d :: d in kept <==> d in before && !DroppedBefore(counts, reps, t, i, j, d)
  }

  /** One check: keep `t` and discard the sub-window, or discard `t`. */
  lemma CheckStep(counts: map<seq<string>, nat>, reps: map<seq<string>, MultiTag>,
                  t: seq<string>, i: nat, j: nat, before: set<seq<string>>, kept: set<seq<string>>)
    requires SubsCounted(counts) && SameKeys(counts, reps) && t in counts
    requires i < |t| && 1 <= j < |t|
    requires CheckState(counts, reps, t, i, j, before, kept)
    ensures CheckState(counts, reps, t, i, j + 1, before,
              if Supports(counts, reps, t, i, j) then kept - {SubKey(t, i, j)} else kept - {t})
  {
    forall d {
      DroppedBeforeStep(counts, reps, t, i, j, d);
    }
  }

  /** Moving on to the sub-windows starting one word later. */
  lemma CheckRow(counts: map<seq<string>, nat>, reps: map<seq<string>, MultiTag>,
                 t: seq<string>, i: nat, before: set<seq<string>>, kept: set<seq<string>>)
    requires SubsCounted(counts) && SameKeys(counts, reps) && t in counts
    requires i < |t|
    requires CheckState(counts, reps, t, i, |t|, before, kept)
    ensures CheckState(counts, reps, t, i + 1, 1, before, kept)
  {
    forall d {
      DroppedBeforeRow(counts, reps, t, i, d);
    }
  }

  /** The checks of one key `t` against each of its proper contiguous
      sub-windows: what is left is what was there less what those checks
      discard. */
  method CheckKey(counts: map<seq<string>, nat>, reps: map<seq<string>, MultiTag>,
                  t: seq<string>, unique: set<seq<string>>) returns (kept: set<seq<string>>)
    requires SubsCounted(counts) && SameKeys(counts, reps) && t in counts
    ensures forall d :: d in kept <==> d in unique && !DroppedBy(counts, reps, t, d)
  {
    kept := unique;
    var cnt := counts[t];
    var words := t;
    for i := 0 to |words|
      invariant CheckState(counts, reps, t, i, 1, unique, kept)
    {
      for j := 1 to |words|
        invariant CheckState(counts, reps, t, i, j, unique, kept)
      {
        var subtag := SubKey(words, i, j);
        CheckStep(counts, reps, t, i, j, unique, kept);
        var relativeFreq := cnt as real / counts[subtag] as real;
        if (relativeFreq == 1.0 && reps[t].proper) || (relativeFreq >= 0.5 && reps[t].score > 0.0) {
          kept := kept - {subtag};
        } else {
          kept := kept - {t};
        }
      }
      CheckRow(counts, reps, t, i, unique, kept);
    }
    forall d
      ensures DroppedBefore(counts, reps, t, |t|, 1, d) <==> DroppedBy(counts, reps, t, d)
    {
    }
  }

  /** Processing one more key adds what its checks discard. */
  lemma UndroppedSnoc(counts: map<seq<string>, nat>, reps: map<seq<string>, MultiTag>,
                      done: set<seq<string>>, t: seq<string>, d: seq<string>)
    requires SubsCounted(counts) && SameKeys(counts, reps) && done <= counts.Keys && t in counts
    ensures Undropped(counts, reps, done + {t}, d) <==> Undropped(counts, reps, done, d) && !DroppedBy(counts, reps, t, d)
  {
  }

  /** Moving a key from the keys to do to the keys done keeps a partition. */
  lemma MoveKey(todo: set<seq<string>>, done: set<seq<string>>, all: set<seq<string>>, t: seq<string>)
    requires todo + done == all && todo !! done && t in todo
    ensures (todo - {t}) + (done + {t}) == all && (todo - {t}) !! (done + {t})
  {
  }

  /** The pruning loop: every key is checked against each of its proper
      contiguous sub-windows; the outcome is `Survivors`, whatever order the
      keys are visited in. */
  method Prune(counts: map<seq<string>, nat>, reps: map<seq<string>, MultiTag>) returns (unique: set<seq<string>>)
    requires SubsCounted(counts) && SameKeys(counts, reps)
    ensures unique == Survivors(counts, reps)
  {
    unique := set d | d in reps && |reps[d].str| > 1;
    ghost var candidates := unique;
    var todo := counts.Keys;
    ghost var done: set<seq<string>> := {};
    while todo != {}
      invariant todo + done == counts.Keys && todo !! done
      invariant forall d :: d in unique <==> d in candidates && Undropped(counts, reps, done, d)
      decreases |todo|
    {
      var t :| t in todo;
      unique := CheckKey(counts, reps, t, unique);
      forall d
        ensures d in unique <==> d in candidates && Undropped(counts, reps, done + {t}, d)
      {
        UndroppedSnoc(counts, reps, done, t, d);
      }
      MoveKey(todo, done, counts.Keys, t);
      done := done + {t};
      todo := todo - {t};
    }
  }

  /** A non-empty set of keys has one whose multitag scores highest. */
  lemma {:induction false} HighestExists(rest: set<seq<string>>, reps: map<seq<string>, MultiTag>)
    requires rest != {} && rest <= reps.Keys
    ensures exists top :: top in rest && forall k :: k in rest ==> reps[k].score <= reps[top].score
    decreases |rest|
  {
    var x :| x in rest;
    if rest != {x} {
      HighestExists(rest - {x}, reps);
      var b :| b in rest - {x} && forall k :: k in rest - {x} ==> reps[k].score <= reps[b].score;
      if reps[x].score > reps[b].score {
        assert forall k :: k in rest ==> reps[k].score <= reps[x].score;
      } else {
        assert forall k :: k in rest ==> reps[k].score <= reps[b].score;
      }
    } else {
      assert forall k :: k in rest ==> k == x;
    }
  }

  /** `r` lists the multitags of the keys `listed`, each exactly once. */
  ghost predicate Lists(r: seq<MultiTag>, reps: map<seq<string>, MultiTag>, listed: set<seq<string>>) {
    && (forall n :: 0 <= n < |r| ==> r[n].stems in listed && r[n].stems in reps && r[n] == reps[r[n].stems])
    && (forall key :: key in listed ==> exists n :: 0 <= n < |r| && r[n].stems == key)
    && (forall a, b :: 0 <= a < b < |r| ==> r[a].stems != r[b].stems)
  }

  /** Listing one more key. */
  lemma ListsSnoc(r: seq<MultiTag>, reps: map<seq<string>, MultiTag>, listed: set<seq<string>>, top: seq<string>)
    requires Lists(r, reps, listed) && top !in listed && top in reps && reps[top].stems == top
    ensures Lists(r + [reps[top]], reps, listed + {top})
  {
    var r' := r + [reps[top]];
    forall key | key in listed + {top}
      ensures exists n :: 0 <= n < |r'| && r'[n].stems == key
    {
      if key == top {
        assert r'[|r|].stems == key;
      } else {
        var n :| 0 <= n < |r| && r[n].stems == key;
        assert r'[n].stems == key;
      }
    }
  }

  /** Highest score first: no multitag precedes one listed before it. */
  predicate ByScore(r: seq<MultiTag>) {
    forall a, b :: 0 <= a < b < |r| ==> !Precedes(r[b], r[a])
  }

  /** Every multitag listed scores at least as high as those of the keys left. */
  ghost predicate Dominates(r: seq<MultiTag>, reps: map<seq<string>, MultiTag>, rest: set<seq<string>>)
    requires rest <= reps.Keys
  {
    forall n, key :: 0 <= n < |r| && key in rest ==> r[n].score >= reps[key].score
  }

  /** Appending a highest-scoring key left keeps the list ordered. */
  lemma ByScoreSnoc(r: seq<MultiTag>, reps: map<seq<string>, MultiTag>, rest: set<seq<string>>, top: seq<string>)
    requires rest <= reps.Keys && top in rest
    requires ByScore(r) && Dominates(r, reps, rest)
    requires forall k :: k in rest ==> reps[k].score <= reps[top].score
    ensures ByScore(r + [reps[top]]) && Dominates(r + [reps[top]], reps, rest - {top})
  {
  }

  /** `sorted(unique_tags)`: the multitags of the keys, each once, highest
      score first. */
  method SortByScore(keys: set<seq<string>>, reps: map<seq<string>, MultiTag>) returns (r: seq<MultiTag>)
    requires keys <= reps.Keys
    requires forall key :: key in reps ==> reps[key].stems == key
    ensures |r| == |keys| && Lists(r, reps, keys) && ByScore(r)
  {
    r := [];
    var rest := keys;
    ghost var listed: set<seq<string>> := {};
    while rest != {}
      invariant rest <= keys && listed == keys - rest && |r| + |rest| == |keys|
      invariant Lists(r, reps, listed) && ByScore(r) && Dominates(r, reps, rest)
      decreases |rest|
    {
      HighestExists(rest, reps);
      var top :| top in rest && forall k :: k in rest ==> reps[k].score <= reps[top].score;
      ListsSnoc(r, reps, listed, top);
      ByScoreSnoc(r, reps, rest, top);
      r := r + [reps[top]];
      rest := rest - {top};
      listed := listed + {top};
    }
    assert listed == keys;
  }

  /** Over non-negative weights and a true root, every multitag the rater can
      return has a non-negative rating, its score is the size-th root of that
      rating, and its size is its number of stems. */
  lemma RepScores(tags: seq<Tag>, weights: map<string, real>, multitagSize: int,
                  root: (real, nat) -> real, key: seq<string>)
    requires NonNegative(weights) && IsRoot(root)
    requires key in RepMap(Multitags(RatedUnits(tags, weights), multitagSize, root))
    ensures var m := RepMap(Multitags(RatedUnits(tags, weights), multitagSize, root))[key];
      && m.stems == key && m.size == |key|
      && m.rating >= 0.0 && m.score >= 0.0
      && Pow(m.score, m.size) == m.rating
      && (m.score > 0.0 <==> m.rating > 0.0)
  {
    var rated := RatedUnits(tags, weights);
    RatedNonNegative(tags, weights);
    var ms := Multitags(rated, multitagSize, root);
    SpansInBounds(rated, multitagSize, |rated|);
    var sp := Spans(rated, multitagSize);
    var n := FirstIndex(StemsOf(ms), key);
    assert ms[n] == Window(rated, sp[n], root);
    WindowShape(rated, sp[n], root);
    WindowRating(rated, sp[n], root);
    RootLaws(root, ms[n].rating, sp[n].size);
  }

  /** Multitags with distinct generated keys are distinct tags: their joined
      stems differ. */
  lemma DistinctTags(tags: seq<Tag>, multitagSize: int, root: (real, nat) -> real, r: seq<MultiTag>)
    requires forall q :: 0 <= q < |tags| ==> IsWord(tags[q].stem)
    requires forall n :: 0 <= n < |r| ==> r[n].stems in CountMap(Multitags(tags, multitagSize, root))
    requires forall a, b :: 0 <= a < b < |r| ==> r[a].stems != r[b].stems
    ensures forall a, b :: 0 <= a < b < |r| ==> !SameTag(r[a], r[b])
  {
    forall a, b | 0 <= a < b < |r|
      ensures !SameTag(r[a], r[b])
    {
      KeysAreWords(tags, multitagSize, root, r[a].stems);
      KeysAreWords(tags, multitagSize, root, r[b].stems);
      JoinInjective(r[a].stems, r[b].stems);
    }
  }

  /** The extension loop of `create_multitags` at start position `i` holds
      the multitag of the window of size `j`, and `j` has not passed the
      last size generated there. */
  ghost predicate Extending(tags: seq<Tag>, multitagSize: int, i: nat, j: nat, t: MultiTag, root: (real, nat) -> real)
    requires i < |tags|
  {
    && 1 <= j <= Len(tags, multitagSize, i)
    && Reach(tags, multitagSize, i, j) == Len(tags, multitagSize, i)
    && t == Window(tags, Span(i, j), root)
  }

  /** The loop has appended to `before` the multitags of the windows of
      sizes 1 to `j` at start position `i`. */
  ghost predicate Emitted(tags: seq<Tag>, i: nat, j: nat, root: (real, nat) -> real,
                          before: seq<MultiTag>, multitags: seq<MultiTag>)
  {
    AllInBounds(tags, Chain(i, j)) && multitags == before + WindowsOf(tags, Chain(i, j), root)
  }

  /** Appending the multitag of the next window. */
  lemma EmittedSnoc(tags: seq<Tag>, i: nat, j: nat, root: (real, nat) -> real,
                    before: seq<MultiTag>, multitags: seq<MultiTag>, t: MultiTag)
    requires i + j + 1 <= |tags|
    requires if j == 0 then multitags == before else Emitted(tags, i, j, root, before, multitags)
    requires t == Window(tags, Span(i, j + 1), root)
    ensures Emitted(tags, i, j + 1, root, before, multitags + [t])
  {
    ChainWindowsSnoc(tags, i, j, root);
    if j == 0 {
      assert WindowsOf(tags, Chain(i, 0), root) == [];
    }
  }

  lemma ExtendingStart(tags: seq<Tag>, multitagSize: int, i: nat, root: (real, nat) -> real)
    requires i < |tags|
    ensures Extending(tags, multitagSize, i, 1, Single(tags[i]), root)
  {
  }

  /** Extending by the next tag, when the loop goes on, keeps to the windows generated. */
  lemma ExtendingStep(tags: seq<Tag>, multitagSize: int, i: nat, j: nat, t: MultiTag, root: (real, nat) -> real)
    requires i < |tags| && Extending(tags, multitagSize, i, j, t, root)
    requires j < multitagSize && !t.terminal && i + j < |tags|
    ensures Extending(tags, multitagSize, i, j + 1, Extend(t, tags[i + j], root), root)
  {
    WindowShape(tags, Span(i, j), root);
    assert Reach(tags, multitagSize, i, j) == Reach(tags, multitagSize, i, j + 1);
  }

  /** When the loop stops, it has emitted every size generated at `i`. */
  lemma ExtendingDone(tags: seq<Tag>, multitagSize: int, i: nat, j: nat, t: MultiTag, root: (real, nat) -> real)
    requires i < |tags| && Extending(tags, multitagSize, i, j, t, root)
    requires j >= multitagSize || t.terminal || i + j >= |tags|
    ensures j == Len(tags, multitagSize, i)
  {
    WindowShape(tags, Span(i, j), root);
  }

  /** `term_count.get(s, 0)`. */
  function Get(m: map<string, nat>, s: string): nat {
    if s in m then m[s] else 0
  }

  /** The counter holds the stem counts of the first `k` tags. */
  ghost predicate Tallied(termCount: map<string, nat>, tags: seq<Tag>, k: nat)
    requires k <= |tags|
  {
    forall s :: Get(termCount, s) == Occurrences(tags[..k], s)
  }

  /** Counting one more tag's stem keeps the counter exact. */
  lemma TalliedSnoc(termCount: map<string, nat>, tags: seq<Tag>, k: nat)
    requires k < |tags| && Tallied(termCount, tags, k)
    ensures Tallied(termCount[tags[k].stem := Get(termCount, tags[k].stem) + 1], tags, k + 1)
  {
    var next := termCount[tags[k].stem := Get(termCount, tags[k].stem) + 1];
    assert DropLast(tags[..k + 1]) == tags[..k];
    forall s
      ensures Get(next, s) == Occurrences(tags[..k + 1], s)
    {
      assert Occurrences(tags[..k + 1], s) == Occurrences(tags[..k], s) + if tags[k].stem == s then 1 else 0;
    }
  }

  /** Rating one more tag extends the rated prefix. */
  lemma RatedSnoc(tags: seq<Tag>, weights: map<string, real>, rated: seq<Tag>, k: nat, rating: real)
    requires k < |tags| && rated == RatedUnits(tags, weights)[..k]
    requires rating == UnitRating(tags, weights, tags[k].stem)
    ensures rated + [tags[k].(rating := rating)] == RatedUnits(tags, weights)[..k + 1]
  {
    var all := RatedUnits(tags, weights);
    assert all[k] == tags[k].(rating := rating);
    assert all[..k + 1] == all[..k] + [all[k]];
  }

  class Rater {
    /** Per-stem weights; stems without one weigh 1.0. */
    const weights: map<string, real>
    /** The largest number of unit tags in one multitag. */
    const multitagSize: int

    constructor (weights: map<string, real>, multitagSize: int := 3)
      ensures this.weights == weights && this.multitagSize == multitagSize
    {
      this.weights := weights;
      this.multitagSize := multitagSize;
    }

    /** The rating loop: counts the stems, then rates every unit tag. */
    method AssignRatings(tags: seq<Tag>) returns (rated: seq<Tag>)
      ensures rated == RatedUnits(tags, weights)
    {
      var termCount: map<string, nat> := map[];
      for k := 0 to |tags|
        invariant Tallied(termCount, tags, k)
      {
        TalliedSnoc(termCount, tags, k);
        termCount := termCount[tags[k].stem := Get(termCount, tags[k].stem) + 1];
      }
      assert tags[..|tags|] == tags;
      rated := [];
      for k := 0 to |tags|
        invariant rated == RatedUnits(tags, weights)[..k]
      {
        var t := tags[k];
        var count := Get(termCount, t.stem);
        assert count == Occurrences(tags[..|tags|], t.stem) == Occurrences(tags, t.stem);
        var rating := Tally(count, |tags|, Weight(weights, t.stem));
        RatedSnoc(tags, weights, rated, k, rating);
        rated := rated + [t.(rating := rating)];
      }
      assert RatedUnits(tags, weights)[..|tags|] == RatedUnits(tags, weights);
    }

    /** `create_multitags`: for each start position, the one-tag multitag and
        then its extensions, until the size cap, the end of the tags or a
        terminal tag. */
    method CreateMultitags(tags: seq<Tag>, root: (real, nat) -> real) returns (multitags: seq<MultiTag>)
      ensures multitags == Multitags(tags, multitagSize, root)
    {
      multitags := [];
      for i := 0 to |tags|
        invariant SpansListed(tags, multitagSize, i)
        invariant multitags == WindowsOf(tags, SpansUpTo(tags, multitagSize, i), root)
      {
        SpansUpToWindows(tags, multitagSize, i, root);
        ghost var before := multitags;
        var t := Single(tags[i]);
        EmittedSnoc(tags, i, 0, root, before, multitags, t);
        multitags := multitags + [t];
        ExtendingStart(tags, multitagSize, i, root);
        var j := 1;
        while j < multitagSize
          invariant Extending(tags, multitagSize, i, j, t, root)
          invariant Emitted(tags, i, j, root, before, multitags)
        {
          if t.terminal || i + j >= |tags| {
            break;
          }
          ExtendingStep(tags, multitagSize, i, j, t, root);
          t := Extend(t, tags[i + j], root);
          EmittedSnoc(tags, i, j, root, before, multitags, t);
          multitags := multitags + [t];
          j := j + 1;
        }
        ExtendingDone(tags, multitagSize, i, j, t, root);
      }
    }

    /** `Rater.__call__`: the unique multitags that survive pruning, each with
        its most common string, highest score first. */
    method Rate(tags: seq<Tag>, root: (real, nat) -> real) returns (r: seq<MultiTag>)
      requires forall q :: 0 <= q < |tags| ==> IsWord(tags[q].stem)
      ensures |r| == |Best(tags, weights, multitagSize, root)|
      ensures Lists(r, Reps(tags, weights, multitagSize, root), Best(tags, weights, multitagSize, root))
      ensures ByScore(r)
      ensures forall a, b :: 0 <= a < b < |r| ==> !SameTag(r[a], r[b])
      ensures forall n :: 0 <= n < |r| ==> |r[n].str| > 1
      ensures tags == [] ==> r == []
    {
      var rated := AssignRatings(tags);
      var ms := CreateMultitags(rated, root);
      var counts, firsts := CountMultitags(ms);
      var reps := ChooseSurfaces(ms, firsts);
      GeneratedSubsCounted(rated, multitagSize, root);
      var unique := Prune(counts, reps);
      r := SortByScore(unique, reps);
      DistinctTags(rated, multitagSize, root, r);
    }
  }
}
