/** Stem-keyed counting of generated multitags, and the invariant that makes
    the redundancy test safe: every contiguous part of a generated window is
    generated at least as often as the window itself. */
module Counts {
  import opened Tags
  import opened Windows

  /** The stem-sequence keys of a list of multitags, in order. */
  function StemsOf(ms: seq<MultiTag>): (ks: seq<seq<string>>)
    ensures |ks| == |ms|
  {
    seq(|ms|, k requires 0 <= k < |ms| => ms[k].stems)
  }

  /** `Counter(multitags)[key]`, on the multitags' keys: how often `key` appears. */
  function CountIn(ks: seq<seq<string>>, key: seq<string>): (c: nat)
    ensures c <= |ks|
    ensures c > 0 <==> key in ks
  {
    if ks == [] then 0
    else
      var init := ks[..|ks| - 1];
      assert ks == init + [ks[|ks| - 1]];
      CountIn(init, key) + (if ks[|ks| - 1] == key then 1 else 0)
  }

  lemma {:induction false} CountConcat(a: seq<seq<string>>, b: seq<seq<string>>, key: seq<string>)
    ensures CountIn(a + b, key) == CountIn(a, key) + CountIn(b, key)
  {
    if b != [] {
      assert (a + b)[..|a + b| - 1] == a + b[..|b| - 1];
      CountConcat(a, b[..|b| - 1], key);
    } else {
      assert a + b == a;
    }
  }

  /** The keys of the windows of a list of spans. */
  function KeySeq(tags: seq<Tag>, spans: seq<Span>): (ks: seq<seq<string>>)
    requires AllInBounds(tags, spans)
    ensures |ks| == |spans|
  {
    seq(|spans|, k requires 0 <= k < |spans| => StemsAt(tags, spans[k]))
  }

  /** The keys of the generated multitags are the stems of their windows. */
  lemma MultitagKeys(tags: seq<Tag>, multitagSize: int, root: (real, nat) -> real)
    ensures SpansListed(tags, multitagSize, |tags|)
    ensures StemsOf(Multitags(tags, multitagSize, root)) == KeySeq(tags, Spans(tags, multitagSize))
  {
    SpansInBounds(tags, multitagSize, |tags|);
    var sp := Spans(tags, multitagSize);
    var ms := Multitags(tags, multitagSize, root);
    forall k | 0 <= k < |sp|
      ensures ms[k].stems == StemsAt(tags, sp[k])
    {
      WindowShape(tags, sp[k], root);
    }
  }

  /** The window of `|key|` tags from `p` is generated and has stems `key`. */
  predicate Occurs(tags: seq<Tag>, multitagSize: int, key: seq<string>, p: nat) {
    Generated(tags, multitagSize, Span(p, |key|)) && StemsAt(tags, Span(p, |key|)) == key
  }

  /** The number of start positions below `i` at which `key` occurs. */
  function PosCount(tags: seq<Tag>, multitagSize: int, key: seq<string>, i: nat): nat {
    if i == 0 then 0
    else PosCount(tags, multitagSize, key, i - 1) + (if Occurs(tags, multitagSize, key, i - 1) then 1 else 0)
  }

  /** The keys of two lists of windows, one after the other. */
  lemma KeySeqConcat(tags: seq<Tag>, a: seq<Span>, b: seq<Span>)
    requires AllInBounds(tags, a) && AllInBounds(tags, b)
    ensures AllInBounds(tags, a + b)
    ensures KeySeq(tags, a + b) == KeySeq(tags, a) + KeySeq(tags, b)
  {
    assert AllInBounds(tags, a + b) by {
      forall k | 0 <= k < |a + b|
        ensures InBounds(tags, (a + b)[k])
      {
        if k >= |a| {
          assert (a + b)[k] == b[k - |a|];
        }
      }
    }
  }

  /** Among the windows from one start position, the key is counted once if
      it occurs there and not at all otherwise. */
  lemma {:induction false} ChainCount(tags: seq<Tag>, multitagSize: int, p: nat, n: nat, key: seq<string>)
    requires p < |tags| && n <= Len(tags, multitagSize, p)
    ensures AllInBounds(tags, Chain(p, n))
    ensures CountIn(KeySeq(tags, Chain(p, n)), key)
         == if 1 <= |key| <= n && Occurs(tags, multitagSize, key, p) then 1 else 0
  {
    if n > 0 {
      ChainCount(tags, multitagSize, p, n - 1, key);
      ChainSnocCount(tags, p, n - 1, key);
      LenSpec(tags, multitagSize, p);
      assert Generated(tags, multitagSize, Span(p, n));
    } else {
      assert KeySeq(tags, Chain(p, 0)) == [];
    }
  }

  /** One more size from the same start position counts its window's stems. */
  lemma ChainSnocCount(tags: seq<Tag>, p: nat, n: nat, key: seq<string>)
    requires p + n + 1 <= |tags| && AllInBounds(tags, Chain(p, n))
    ensures AllInBounds(tags, Chain(p, n + 1))
    ensures CountIn(KeySeq(tags, Chain(p, n + 1)), key)
         == CountIn(KeySeq(tags, Chain(p, n)), key) + if StemsAt(tags, Span(p, n + 1)) == key then 1 else 0
  {
    var s := Span(p, n + 1);
    var w := StemsAt(tags, s);
    var prev := Chain(p, n);
    assert Chain(p, n + 1) == prev + [s];
    assert AllInBounds(tags, [s]);
    KeySeqConcat(tags, prev, [s]);
    assert KeySeq(tags, [s]) == [w];
    CountConcat(KeySeq(tags, prev), [w], key);
    assert CountIn([w], key) == if w == key then 1 else 0 by {
      assert [w][..0] == [];
    }
  }

  /** All the windows from one start position count the key once exactly
      when it occurs there. */
  lemma FullChainCount(tags: seq<Tag>, multitagSize: int, p: nat, key: seq<string>)
    requires p < |tags| && |key| >= 1
    ensures AllInBounds(tags, Chain(p, Len(tags, multitagSize, p)))
    ensures CountIn(KeySeq(tags, Chain(p, Len(tags, multitagSize, p))), key)
         == if Occurs(tags, multitagSize, key, p) then 1 else 0
  {
    ChainCount(tags, multitagSize, p, Len(tags, multitagSize, p), key);
    if Occurs(tags, multitagSize, key, p) {
      LenSpec(tags, multitagSize, p);
    }
  }

  /** Counting keys among the windows of the first `i` start positions is
      counting the positions below `i` where the key occurs. */
  lemma {:induction false} CountIsPositions(tags: seq<Tag>, multitagSize: int, key: seq<string>, i: nat)
    requires i <= |tags| && |key| >= 1
    ensures SpansListed(tags, multitagSize, i)
    ensures CountIn(KeySeq(tags, SpansUpTo(tags, multitagSize, i)), key) == PosCount(tags, multitagSize, key, i)
  {
    if i > 0 {
      CountIsPositions(tags, multitagSize, key, i - 1);
      PositionsSnoc(tags, multitagSize, key, i - 1);
    } else {
      SpansInBounds(tags, multitagSize, 0);
      assert KeySeq(tags, []) == [];
    }
  }

  /** One more start position adds its occurrence, if any, to the count. */
  lemma PositionsSnoc(tags: seq<Tag>, multitagSize: int, key: seq<string>, i: nat)
    requires i < |tags| && |key| >= 1 && SpansListed(tags, multitagSize, i)
    ensures SpansListed(tags, multitagSize, i + 1)
    ensures CountIn(KeySeq(tags, SpansUpTo(tags, multitagSize, i + 1)), key)
         == CountIn(KeySeq(tags, SpansUpTo(tags, multitagSize, i)), key) + if Occurs(tags, multitagSize, key, i) then 1 else 0
  {
    var prev := SpansUpTo(tags, multitagSize, i);
    var c := Chain(i, Len(tags, multitagSize, i));
    FullChainCount(tags, multitagSize, i, key);
    assert SpansUpTo(tags, multitagSize, i + 1) == prev + c;
    KeySeqConcat(tags, prev, c);
    CountConcat(KeySeq(tags, prev), KeySeq(tags, c), key);
  }

  /** `words[i:i+j]` of a key, clipped at its end as Python slices are. */
  function SubKey(key: seq<string>, i: nat, j: nat): (sub: seq<string>)
    requires i <= |key|
  {
    key[i..if i + j <= |key| then i + j else |key|]
  }

  /** A contiguous part of an occurrence is an occurrence of that part. */
  lemma SubOccurs(tags: seq<Tag>, multitagSize: int, key: seq<string>, p: nat, i: nat, j: nat)
    requires Occurs(tags, multitagSize, key, p)
    requires i < |key| && 1 <= j
    ensures Occurs(tags, multitagSize, SubKey(key, i, j), p + i)
  {
    var sub := SubKey(key, i, j);
    var s := Span(p + i, |sub|);
    assert Generated(tags, multitagSize, s) by {
      forall q | p + i <= q < p + i + |sub| - 1
        ensures !tags[q].terminal
      {
        assert p <= q < p + |key| - 1;
      }
    }
    assert forall q :: 0 <= q < |sub| ==> StemsAt(tags, s)[q] == StemsAt(tags, Span(p, |key|))[i + q];
  }

  /** If every occurrence of `key` at `p` gives one of `sub` at `p + i`, then
      `sub` occurs at least as often, counting from `i` on. */
  lemma {:induction false} ShiftCount(tags: seq<Tag>, multitagSize: int, key: seq<string>, sub: seq<string>,
                                      i: nat, n: nat)
    requires forall p: nat :: p < n && Occurs(tags, multitagSize, key, p) ==> Occurs(tags, multitagSize, sub, p + i)
    ensures PosCount(tags, multitagSize, key, n) + PosCount(tags, multitagSize, sub, i)
         <= PosCount(tags, multitagSize, sub, n + i)
  {
    if n > 0 {
      ShiftCount(tags, multitagSize, key, sub, i, n - 1);
    }
  }

  /** No key occurs at or after the end of the tags. */
  lemma {:induction false} PosCountPastEnd(tags: seq<Tag>, multitagSize: int, key: seq<string>, n: nat)
    requires n >= |tags|
    ensures PosCount(tags, multitagSize, key, n) == PosCount(tags, multitagSize, key, |tags|)
  {
    if n > |tags| {
      PosCountPastEnd(tags, multitagSize, key, n - 1);
    }
  }

  /** A contiguous part of a key occurs at at least as many positions as the key. */
  lemma SubPosCount(tags: seq<Tag>, multitagSize: int, key: seq<string>, i: nat, j: nat)
    requires i < |key| && 1 <= j
    ensures PosCount(tags, multitagSize, SubKey(key, i, j), |tags|) >= PosCount(tags, multitagSize, key, |tags|)
  {
    var sub := SubKey(key, i, j);
    forall p: nat | p < |tags| && Occurs(tags, multitagSize, key, p)
      ensures Occurs(tags, multitagSize, sub, p + i)
    {
      SubOccurs(tags, multitagSize, key, p, i, j);
    }
    ShiftCount(tags, multitagSize, key, sub, i, |tags|);
    PosCountPastEnd(tags, multitagSize, sub, |tags| + i);
  }

  /** Every proper contiguous sub-window `words[i:i+j]` of a generated
      multitag's stems is itself generated, at least as often as the multitag;
      so the counter never returns 0 for it. */
  lemma SubWindowCount(tags: seq<Tag>, multitagSize: int, root: (real, nat) -> real,
                       key: seq<string>, i: nat, j: nat)
    requires key in StemsOf(Multitags(tags, multitagSize, root))
    requires i < |key| && 1 <= j < |key|
    ensures var ks := StemsOf(Multitags(tags, multitagSize, root));
      && SubKey(key, i, j) in ks
      && CountIn(ks, SubKey(key, i, j)) >= CountIn(ks, key) >= 1
  {
    var sub := SubKey(key, i, j);
    MultitagKeys(tags, multitagSize, root);
    var ks := StemsOf(Multitags(tags, multitagSize, root));
    assert ks == KeySeq(tags, SpansUpTo(tags, multitagSize, |tags|));
    CountIsPositions(tags, multitagSize, key, |tags|);
    CountIsPositions(tags, multitagSize, sub, |tags|);
    SubPosCount(tags, multitagSize, key, i, j);
  }
}
