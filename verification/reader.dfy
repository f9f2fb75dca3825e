/** Flag assignment of the reader: from phrases already split into words to
    unit tags marked proper and terminal. */
module Reader {
  import opened Text
  import opened Tags

  /** `Tag(w.lower(), proper=..., terminal=...)`: the stem starts out as the
      string itself and the rating as 1.0. */
  function NewTag(w: string, proper: bool, terminal: bool): Tag {
    Tag(Lower(w), Lower(w), 1.0, proper, terminal)
  }

  /** `w[0].isupper()`: the word starts with an upper-case letter. */
  predicate Capitalised(w: string) {
    |w| > 0 && IsUpper(w[0])
  }

  /** The tags of one phrase: each word gives one tag, its lower-cased text
      rated 1.0; the first tag is never proper, a later one is proper exactly
      when its word starts with an upper-case letter, and only the last tag of
      the phrase is terminal. */
  function PhraseTags(words: seq<string>): (ts: seq<Tag>)
    requires forall i :: 0 <= i < |words| ==> IsWord(words[i])
    ensures |ts| == |words|
    ensures forall k :: 0 <= k < |ts| ==>
      ts[k] == NewTag(words[k], 0 < k && Capitalised(words[k]), k == |words| - 1)
  {
    if |words| >= 2 then
      var n := |words|;
      var middle := seq(n - 2, k requires 0 <= k < n - 2 => NewTag(words[k + 1], Capitalised(words[k + 1]), false));
      var ts := [NewTag(words[0], false, false)] + middle + [NewTag(words[n - 1], Capitalised(words[n - 1]), true)];
      assert forall k :: 0 < k < n - 1 ==> ts[k] == middle[k - 1];
      ts
    else if |words| == 1 then
      [NewTag(words[0], false, true)]
    else
      []
  }

  /** The tags of a sequence of phrases, phrase after phrase. */
  function ReadAll(phrases: seq<seq<string>>): seq<Tag>
    requires forall p, i :: 0 <= p < |phrases| && 0 <= i < |phrases[p]| ==> IsWord(phrases[p][i])
  {
    if phrases == [] then []
    else ReadAll(phrases[..|phrases| - 1]) + PhraseTags(phrases[|phrases| - 1])
  }

  function WordCount(phrases: seq<seq<string>>): nat {
    if phrases == [] then 0 else WordCount(phrases[..|phrases| - 1]) + |phrases[|phrases| - 1]|
  }

  /** One tag per word, and the tag sequence ends with a terminal tag, so no
      phrase is ever left open at the end of the text. */
  lemma {:induction false} ReadAllShape(phrases: seq<seq<string>>)
    requires forall p, i :: 0 <= p < |phrases| && 0 <= i < |phrases[p]| ==> IsWord(phrases[p][i])
    ensures |ReadAll(phrases)| == WordCount(phrases)
    ensures ReadAll(phrases) != [] ==> ReadAll(phrases)[|ReadAll(phrases)| - 1].terminal
  {
    if phrases != [] {
      ReadAllShape(phrases[..|phrases| - 1]);
    }
  }

  /** Appending the next tag of a phrase extends the prefix read so far. */
  lemma AppendTag(before: seq<Tag>, ts: seq<Tag>, k: nat)
    requires k < |ts|
    ensures before + ts[..k + 1] == (before + ts[..k]) + [ts[k]]
  {
    assert ts[..k + 1] == ts[..k] + [ts[k]];
  }

  /** The body of the reader's loop: the tags of one phrase, appended in
      order after the tags read so far. */
  method AppendPhrase(before: seq<Tag>, words: seq<string>) returns (tags: seq<Tag>)
    requires forall i :: 0 <= i < |words| ==> IsWord(words[i])
    ensures tags == before + PhraseTags(words)
  {
    ghost var ts := PhraseTags(words);
    tags := before;
    assert before + ts[..0] == before;
    if |words| >= 2 {
      AppendTag(before, ts, 0);
      tags := tags + [NewTag(words[0], false, false)];
      if |words| > 2 {
        for k := 1 to |words| - 1
          invariant tags == before + ts[..k]
        {
          AppendTag(before, ts, k);
          tags := tags + [NewTag(words[k], Capitalised(words[k]), false)];
        }
      }
      var last := words[|words| - 1];
      AppendTag(before, ts, |words| - 1);
      tags := tags + [NewTag(last, Capitalised(last), true)];
    } else if |words| == 1 {
      AppendTag(before, ts, 0);
      tags := tags + [NewTag(words[0], false, true)];
    }
    assert ts[..|words|] == ts;
  }

  /** `Reader.__call__` after tokenisation: one tag per word, appended in order. */
  method Read(phrases: seq<seq<string>>) returns (tags: seq<Tag>)
    requires forall p, i :: 0 <= p < |phrases| && 0 <= i < |phrases[p]| ==> IsWord(phrases[p][i])
    ensures tags == ReadAll(phrases)
  {
    tags := [];
    for p := 0 to |phrases|
      invariant tags == ReadAll(phrases[..p])
    {
      tags := AppendPhrase(tags, phrases[p]);
      assert phrases[..p + 1][..p] == phrases[..p];
    }
    assert phrases[..|phrases|] == phrases;
  }
}
