/** The part of the stemmer the tagger owns: stripping contractions and
    possessives before the word is handed to the stemming algorithm. */
module Stemmer {
  import opened Text
  import opened Tags

  /** The length of the run of `\w` characters that starts `s`. */
  function WordRun(s: string): (k: nat)
    ensures k <= |s|
    ensures forall i :: 0 <= i < k ==> IsWordChar(s[i])
    ensures k < |s| ==> !IsWordChar(s[k])
  {
    if s == [] || !IsWordChar(s[0]) then 0 else 1 + WordRun(s[1..])
  }

  /** `(\w+)'` matches at the start of `s` with group 1 of length `k`: a non-empty
      run of word characters followed by an apostrophe. The optional suffix group
      of the pattern never changes whether or where it matches. */
  predicate ContractionAt(s: string, k: nat) {
    0 < k < |s| && s[k] == '\'' && forall i :: 0 <= i < k ==> IsWordChar(s[i])
  }

  /** `Stemmer.pre_stem`: the word before the apostrophe of a contraction or
      possessive, or the string itself when there is none. */
  function PreStem(s: string): (r: string)
    ensures r <= s
    ensures forall k: nat :: ContractionAt(s, k) ==> r == s[..k]
    ensures r != s ==> ContractionAt(s, |r|)
  {
    var k := WordRun(s);
    if 0 < k < |s| && s[k] == '\'' then s[..k] else s
  }

  /** Pre-stemming a pre-stemmed word changes nothing. */
  lemma PreStemIdempotent(s: string)
    ensures PreStem(PreStem(s)) == PreStem(s)
  {
    var r := PreStem(s);
    if r != s {
      assert forall i :: 0 <= i < |r| ==> IsWordChar(r[i]);
      assert WordRun(r) == |r|;
    }
  }

  /** Contractions and possessives lose the apostrophe and what follows it. */
  lemma PreStemCutsExamples()
    ensures PreStem("o'neill") == "o"
    ensures PreStem("don't") == "don"
    ensures PreStem("obama's") == "obama"
  {
    assert ContractionAt("o'neill", 1) && "o'neill"[..1] == "o";
    assert ContractionAt("don't", 3) && "don't"[..3] == "don";
    assert ContractionAt("obama's", 5) && "obama's"[..5] == "obama";
  }

  /** An apostrophe that does not follow a word, and a word without one, are kept. */
  lemma PreStemKeepsExamples()
    ensures PreStem("'tis") == "'tis"
    ensures PreStem("al-qaida") == "al-qaida"
  {
    assert WordRun("'tis") == 0;
    assert "al-qaida"[1..] == "l-qaida" && "l-qaida"[1..] == "-qaida";
    assert WordRun("-qaida") == 0;
    assert WordRun("al-qaida") == 2;
  }

  /** `Stemmer.__call__`: the tag's stem becomes the stemming algorithm's
      result on the pre-stemmed string; nothing else changes. */
  function StemTag(algorithm: string -> string, t: Tag): (r: Tag)
    ensures r.stem == algorithm(PreStem(t.str))
    ensures r.str == t.str && r.rating == t.rating && r.proper == t.proper && r.terminal == t.terminal
  {
    t.(stem := algorithm(PreStem(t.str)))
  }

  /** A word and its contractions or possessives (`obama`, `obama's`) get
      the same stem, whatever the algorithm, and stemming touches nothing but
      the stem. */
  lemma ContractionSharesStem(algorithm: string -> string, t: Tag, u: Tag, suffix: string)
    requires |u.str| > 0 && forall i :: 0 <= i < |u.str| ==> IsWordChar(u.str[i])
    requires t.str == u.str + suffix && |suffix| > 0 && suffix[0] == '\''
    ensures StemTag(algorithm, t).stem == StemTag(algorithm, u).stem
    ensures var r := StemTag(algorithm, t);
      r.str == t.str && r.rating == t.rating && r.proper == t.proper && r.terminal == t.terminal
  {
    assert ContractionAt(t.str, |u.str|);
    assert WordRun(u.str) == |u.str| by {
      WordRunOfWordChars(u.str);
    }
    assert t.str[..|u.str|] == u.str;
  }

  lemma {:induction false} WordRunOfWordChars(s: string)
    requires forall i :: 0 <= i < |s| ==> IsWordChar(s[i])
    ensures WordRun(s) == |s|
  {
    if s != [] {
      WordRunOfWordChars(s[1..]);
    }
  }
}
