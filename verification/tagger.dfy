/** The tagger: read the phrases into unit tags, stem them, rate them and
    keep the best few. */
module Tagging {
  import opened Text
  import opened Tags
  import opened Stemmer
  import opened Reader
  import opened Windows
  import opened Pruning
  import opened Clusters
  import opened Rating

  /** Lower-casing keeps a word a word. */
  lemma LowerWord(w: string)
    requires IsWord(w)
    ensures IsWord(Lower(w))
  {
    forall i | 0 <= i < |w|
      ensures !IsSpace(Lower(w)[i])
    {
      if IsUpper(w[i]) {
        assert 'a' <= Lower(w)[i] <= 'z';
      }
    }
  }

  /** Pre-stemming keeps a word a word: a contraction is cut after a
      non-empty run of word characters. */
  lemma PreStemWord(w: string)
    requires IsWord(w)
    ensures IsWord(PreStem(w))
  {
  }

  /** The reader turns words into tags whose strings are words. */
  lemma {:induction false} ReadAllWords(phrases: seq<seq<string>>)
    requires forall p, i :: 0 <= p < |phrases| && 0 <= i < |phrases[p]| ==> IsWord(phrases[p][i])
    ensures forall q :: 0 <= q < |ReadAll(phrases)| ==> IsWord(ReadAll(phrases)[q].str)
  {
    if phrases != [] {
      var init, words := phrases[..|phrases| - 1], phrases[|phrases| - 1];
      ReadAllWords(init);
      forall k | 0 <= k < |words|
        ensures IsWord(PhraseTags(words)[k].str)
      {
        LowerWord(words[k]);
      }
      assert ReadAll(phrases) == ReadAll(init) + PhraseTags(words);
    }
  }

  /** `map(self.stemmer, tags)`: one stemmed tag per tag, in order. */
  function StemAll(algorithm: string -> string, tags: seq<Tag>): (r: seq<Tag>)
    ensures |r| == |tags|
    ensures forall k :: 0 <= k < |r| ==>
      r[k].str == tags[k].str && r[k].stem == algorithm(PreStem(tags[k].str)) && r[k].proper == tags[k].proper
  {
    seq(|tags|, k requires 0 <= k < |tags| => StemTag(algorithm, tags[k]))
  }

  /** The end index of the Python slice `s[:n]` on a sequence of length `len`:
      a non-negative `n` keeps at most `n` entries, a negative one drops the
      last `-n`. */
  function SliceEnd(len: nat, n: int): (e: nat)
    ensures e <= len
    ensures n >= 0 ==> e == if n < len then n else len
    ensures n < 0 ==> e + (if -n < len then -n else len) == len
  {
    if n >= 0 then (if n < len then n else len)
    else if len + n > 0 then len + n else 0
  }

  /** With a word-preserving algorithm, the stems of the read tags are words. */
  lemma StemAllWords(algorithm: string -> string, phrases: seq<seq<string>>)
    requires forall p, i :: 0 <= p < |phrases| && 0 <= i < |phrases[p]| ==> IsWord(phrases[p][i])
    requires forall s :: IsWord(s) ==> IsWord(algorithm(s))
    ensures var stemmed := StemAll(algorithm, ReadAll(phrases));
      forall q :: 0 <= q < |stemmed| ==> IsWord(stemmed[q].stem)
  {
    var tags := ReadAll(phrases);
    ReadAllWords(phrases);
    forall q | 0 <= q < |tags|
      ensures IsWord(StemAll(algorithm, tags)[q].stem)
    {
      PreStemWord(tags[q].str);
    }
  }

  /** `r` is Python's `ranked[:n]` for a ranking of the keys `best` by
      score: it holds the representatives of distinct listed keys, highest
      score first, with strings longer than one character, as many as the
      slice keeps, and no key it leaves out scores higher than one it keeps. */
  ghost predicate TopOf(r: seq<MultiTag>, reps: map<seq<string>, MultiTag>, best: set<seq<string>>, n: int) {
    && |r| == SliceEnd(|best|, n)
    && (forall k :: 0 <= k < |r| ==> r[k].stems in best && r[k].stems in reps && r[k] == reps[r[k].stems])
    && (forall key :: key in best && (forall k :: 0 <= k < |r| ==> r[k].stems != key) ==>
          key in reps && forall k :: 0 <= k < |r| ==> !Precedes(reps[key], r[k]))
    && ByScore(r)
    && (forall a, b :: 0 <= a < b < |r| ==> !SameTag(r[a], r[b]))
    && (forall k :: 0 <= k < |r| ==> |r[k].str| > 1)
  }

  /** The first `n` entries of a ranking are its top `n`. */
  lemma RankingTop(ranked: seq<MultiTag>, reps: map<seq<string>, MultiTag>, best: set<seq<string>>, n: int)
    requires |ranked| == |best| && Lists(ranked, reps, best) && ByScore(ranked)
    requires forall a, b :: 0 <= a < b < |ranked| ==> !SameTag(ranked[a], ranked[b])
    requires forall k :: 0 <= k < |ranked| ==> |ranked[k].str| > 1
    ensures TopOf(ranked[..SliceEnd(|ranked|, n)], reps, best, n)
  {
    TopListed(ranked, reps, best, n);
    TopByScore(ranked, SliceEnd(|ranked|, n));
    TopOutranks(ranked, reps, best, SliceEnd(|ranked|, n));
  }

  /** The first `tagsNumber` entries of a ranking (Python's `ranked[:tagsNumber]`)
      are listed keys with their representatives, distinct, and with strings
      longer than one character. */
  lemma TopListed(ranked: seq<MultiTag>, reps: map<seq<string>, MultiTag>, best: set<seq<string>>, tagsNumber: int)
    requires |ranked| == |best| && Lists(ranked, reps, best)
    requires forall a, b :: 0 <= a < b < |ranked| ==> !SameTag(ranked[a], ranked[b])
    requires forall n :: 0 <= n < |ranked| ==> |ranked[n].str| > 1
    ensures var r := ranked[..SliceEnd(|ranked|, tagsNumber)];
      && |r| == SliceEnd(|best|, tagsNumber)
      && (forall n :: 0 <= n < |r| ==> r[n].stems in best && r[n] == reps[r[n].stems])
      && (forall a, b :: 0 <= a < b < |r| ==> !SameTag(r[a], r[b]))
      && (forall n :: 0 <= n < |r| ==> |r[n].str| > 1)
  {
    var r := ranked[..SliceEnd(|ranked|, tagsNumber)];
    forall n | 0 <= n < |r|
      ensures r[n] == ranked[n]
    {
    }
  }

  /** The first entries of a ranking are still highest score first. */
  lemma TopByScore(ranked: seq<MultiTag>, e: nat)
    requires ByScore(ranked) && e <= |ranked|
    ensures ByScore(ranked[..e])
  {
    var r := ranked[..e];
    forall a, b | 0 <= a < b < |r|
      ensures !Precedes(r[b], r[a])
    {
      assert r[a] == ranked[a] && r[b] == ranked[b];
    }
  }

  /** No key left out of the first `e` entries of a ranking scores higher
      than one kept. */
  lemma TopOutranks(ranked: seq<MultiTag>, reps: map<seq<string>, MultiTag>, best: set<seq<string>>, e: nat)
    requires Lists(ranked, reps, best) && ByScore(ranked) && e <= |ranked|
    ensures var r := ranked[..e];
      forall key :: key in best && (forall n :: 0 <= n < |r| ==> r[n].stems != key) ==>
        key in reps && forall n :: 0 <= n < |r| ==> !Precedes(reps[key], r[n])
  {
    var r := ranked[..e];
    forall key | key in best && (forall n :: 0 <= n < |r| ==> r[n].stems != key)
      ensures key in reps && forall n :: 0 <= n < |r| ==> !Precedes(reps[key], r[n])
    {
      var m :| 0 <= m < |ranked| && ranked[m].stems == key;
      assert ranked[m] == reps[key];
      forall n | 0 <= n < |r|
        ensures !Precedes(reps[key], r[n])
      {
        assert r[n] == ranked[n];
      }
    }
  }

  class Tagger {
    /** The stemming algorithm of the tagger's stemmer. */
    const algorithm: string -> string
    const rater: Rater

    constructor (algorithm: string -> string, rater: Rater)
      ensures this.algorithm == algorithm && this.rater == rater
    {
      this.algorithm := algorithm;
      this.rater := rater;
    }

    /** `Tagger.__call__`: the first `tagsNumber` entries of the rater's
        ranking, so the best-scoring surviving multitags. */
    method TagText(phrases: seq<seq<string>>, root: (real, nat) -> real, tagsNumber: int := 5) returns (r: seq<MultiTag>)
      requires forall p, i :: 0 <= p < |phrases| && 0 <= i < |phrases[p]| ==> IsWord(phrases[p][i])
      requires forall s :: IsWord(s) ==> IsWord(algorithm(s))
      ensures var tags := StemAll(algorithm, ReadAll(phrases));
        TopOf(r, Reps(tags, rater.weights, rater.multitagSize, root), Best(tags, rater.weights, rater.multitagSize, root), tagsNumber)
    {
      var tags := Read(phrases);
      StemAllWords(algorithm, phrases);
      var stemmed := StemAll(algorithm, tags);
      var ranked := rater.Rate(stemmed, root);
      RankingTop(ranked, Reps(stemmed, rater.weights, rater.multitagSize, root),
                 Best(stemmed, rater.weights, rater.multitagSize, root), tagsNumber);
      r := ranked[..SliceEnd(|ranked|, tagsNumber)];
    }
  }
}
