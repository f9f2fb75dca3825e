/** The candidates `create_multitags` generates: every run of adjacent unit
    tags up to the size cap that does not continue past a terminal tag. */
module Windows {
  import opened Tags

  /** The largest multitag built: `xrange(1, multitagSize)` allows
      `multitagSize - 1` extensions, and none when it is below 2. */
  function MaxSize(multitagSize: int): (m: nat)
    ensures m >= 1 && m >= multitagSize
  {
    if multitagSize >= 1 then multitagSize else 1
  }

  /** A window: the `size` unit tags from position `start`. */
  datatype Span = Span(start: nat, size: nat)

  /** The window fits in `tags` and is not empty. */
  predicate InBounds(tags: seq<Tag>, s: Span) {
    1 <= s.size && s.start + s.size <= |tags|
  }

  /** Every window of the list fits in the tags. */
  predicate AllInBounds(tags: seq<Tag>, spans: seq<Span>) {
    forall k :: 0 <= k < |spans| ==> InBounds(tags, spans[k])
  }

  /** The window is one `create_multitags` emits: within the size cap, inside
      the tags, and no tag but the last is terminal. */
  predicate Generated(tags: seq<Tag>, multitagSize: int, s: Span): (g: bool)
    ensures g ==> InBounds(tags, s) && s.size <= MaxSize(multitagSize)
    ensures g && s.size > 1 ==> !tags[s.start].terminal
  {
    && InBounds(tags, s)
    && s.size <= MaxSize(multitagSize)
    && forall q :: s.start <= q < s.start + s.size - 1 ==> !tags[q].terminal
  }

  /** The multitag built for a window: the first tag, extended one tag at a time. */
  function Window(tags: seq<Tag>, s: Span, root: (real, nat) -> real): (m: MultiTag)
    requires InBounds(tags, s)
    ensures m.size == s.size == |m.stems|
    ensures m.terminal == tags[s.start + s.size - 1].terminal
    decreases s.size
  {
    if s.size == 1 then Single(tags[s.start])
    else Extend(Window(tags, Span(s.start, s.size - 1), root), tags[s.start + s.size - 1], root)
  }

  /** The stems of the unit tags in a window. */
  function StemsAt(tags: seq<Tag>, s: Span): (ws: seq<string>)
    requires InBounds(tags, s)
    ensures |ws| == s.size
  {
    seq(s.size, q requires 0 <= q < s.size => tags[s.start + q].stem)
  }

  /** All unit tags of a window are proper. */
  predicate AllProper(tags: seq<Tag>, s: Span)
    requires InBounds(tags, s)
  {
    forall q :: s.start <= q < s.start + s.size ==> tags[q].proper
  }

  /** A window's multitag carries the stems of its tags, has their number as
      size, is proper exactly when all of them are, and is terminal exactly
      when its last tag is. */
  lemma {:induction false} WindowShape(tags: seq<Tag>, s: Span, root: (real, nat) -> real)
    requires InBounds(tags, s)
    ensures var m := Window(tags, s, root);
      && m.stems == StemsAt(tags, s)
      && m.size == s.size
      && (m.proper <==> AllProper(tags, s))
      && m.terminal == tags[s.start + s.size - 1].terminal
    decreases s.size
  {
    if s.size > 1 {
      var h := Span(s.start, s.size - 1);
      WindowShape(tags, h, root);
      assert StemsAt(tags, s) == StemsAt(tags, h) + [tags[s.start + s.size - 1].stem];
    }
  }

  /** The product of the ratings of the tags of a window. */
  function Product(tags: seq<Tag>, s: Span): real
    requires InBounds(tags, s)
    decreases s.size
  {
    if s.size == 1 then tags[s.start].rating
    else Product(tags, Span(s.start, s.size - 1)) * tags[s.start + s.size - 1].rating
  }

  /** Over non-negative unit ratings a window's rating is non-negative, its
      score is the size-th root of its rating, and the score is positive
      exactly when the rating is. */
  lemma {:induction false} WindowRating(tags: seq<Tag>, s: Span, root: (real, nat) -> real)
    requires InBounds(tags, s) && IsRoot(root)
    requires forall q :: 0 <= q < |tags| ==> tags[q].rating >= 0.0
    ensures var m := Window(tags, s, root);
      && m.rating >= 0.0
      && Pow(m.score, s.size) == m.rating
      && (m.score > 0.0 <==> m.rating > 0.0)
    decreases s.size
  {
    var m := Window(tags, s, root);
    if s.size == 1 {
      RootLaws(root, m.rating, 1);
      assert Pow(m.score, 1) == m.score;
    } else {
      var h := Span(s.start, s.size - 1);
      WindowRating(tags, h, root);
      WindowShape(tags, h, root);
      ExtendLaws(Window(tags, h, root), tags[s.start + s.size - 1], root);
    }
  }

  /** When every unit rating of a window is positive no proper-noun promotion
      happens: the rating is the product of the unit ratings, so the score is
      their geometric mean. */
  lemma {:induction false} GeometricMean(tags: seq<Tag>, s: Span, root: (real, nat) -> real)
    requires InBounds(tags, s)
    requires forall q :: s.start <= q < s.start + s.size ==> tags[q].rating > 0.0
    ensures Window(tags, s, root).rating == Product(tags, s) > 0.0
    decreases s.size
  {
    if s.size > 1 {
      var h := Span(s.start, s.size - 1);
      var t := tags[s.start + s.size - 1];
      var hm := Window(tags, h, root);
      GeometricMean(tags, h, root);
      ExtendPositive(hm, t, root);
      calc {
        Window(tags, s, root).rating;
        Extend(hm, t, root).rating;
        hm.rating * t.rating;
        { assert hm.rating == Product(tags, h); }
        Product(tags, h) * t.rating;
        Product(tags, s);
      }
    }
  }

  /** How far the extension loop for one start position gets from size `n`:
      it stops at the size cap, at the end of the tags, or after a terminal tag. */
  function Reach(tags: seq<Tag>, multitagSize: int, p: nat, n: nat): (r: nat)
    requires 1 <= n && p + n <= |tags|
    ensures n <= r && p + r <= |tags|
    decreases |tags| - n
  {
    if n >= MaxSize(multitagSize) || p + n >= |tags| || tags[p + n - 1].terminal then n
    else Reach(tags, multitagSize, p, n + 1)
  }

  /** The number of windows generated from start position `p`. */
  function Len(tags: seq<Tag>, multitagSize: int, p: nat): (r: nat)
    requires p < |tags|
    ensures 1 <= r && p + r <= |tags|
  {
    Reach(tags, multitagSize, p, 1)
  }

  lemma {:induction false} ReachSpec(tags: seq<Tag>, multitagSize: int, p: nat, n: nat)
    requires 1 <= n && p + n <= |tags| && Generated(tags, multitagSize, Span(p, n))
    ensures forall m :: 1 <= m ==> (Generated(tags, multitagSize, Span(p, m)) <==> m <= Reach(tags, multitagSize, p, n))
    decreases |tags| - n
  {
    if n >= MaxSize(multitagSize) || p + n >= |tags| || tags[p + n - 1].terminal {
      forall m | n < m
        ensures !Generated(tags, multitagSize, Span(p, m))
      {
        if n < MaxSize(multitagSize) && p + n < |tags| {
          assert p <= p + n - 1 < p + m - 1;
        }
      }
    } else {
      assert Generated(tags, multitagSize, Span(p, n + 1));
      ReachSpec(tags, multitagSize, p, n + 1);
    }
  }

  /** The windows starting at `p` are exactly those of sizes 1 to `Len(p)`;
      in particular every position starts at least its one-tag window. */
  lemma LenSpec(tags: seq<Tag>, multitagSize: int, p: nat)
    requires p < |tags|
    ensures forall m :: 1 <= m ==> (Generated(tags, multitagSize, Span(p, m)) <==> m <= Len(tags, multitagSize, p))
  {
    ReachSpec(tags, multitagSize, p, 1);
  }

  /** The windows of sizes 1 to `n` starting at `p`, smallest first. */
  function Chain(p: nat, n: nat): (c: seq<Span>)
    ensures |c| == n
    ensures forall k :: 0 <= k < n ==> c[k] == Span(p, k + 1)
  {
    seq(n, k requires 0 <= k < n => Span(p, k + 1))
  }

  /** The windows generated for the start positions below `i`, in the order
      `create_multitags` appends them. */
  function SpansUpTo(tags: seq<Tag>, multitagSize: int, i: nat): seq<Span>
    requires i <= |tags|
  {
    if i == 0 then []
    else SpansUpTo(tags, multitagSize, i - 1) + Chain(i - 1, Len(tags, multitagSize, i - 1))
  }

  /** All windows `create_multitags` generates, in order. */
  function Spans(tags: seq<Tag>, multitagSize: int): seq<Span> {
    SpansUpTo(tags, multitagSize, |tags|)
  }

  /** Spans in strictly increasing (start, size) order: no window twice. */
  predicate Ascending(spans: seq<Span>) {
    forall a, b :: 0 <= a < b < |spans| ==>
      spans[a].start < spans[b].start || (spans[a].start == spans[b].start && spans[a].size < spans[b].size)
  }

  /** The first `i` start positions generate, once each and ordered by start
      and then size, exactly the generated windows starting below `i`. */
  lemma {:induction false} SpansUpToSpec(tags: seq<Tag>, multitagSize: int, i: nat)
    requires i <= |tags|
    ensures var sp := SpansUpTo(tags, multitagSize, i);
      && Ascending(sp)
      && (forall k :: 0 <= k < |sp| ==> sp[k].start < i)
      && forall s :: s in sp <==> s.start < i && Generated(tags, multitagSize, s)
  {
    if i > 0 {
      SpansUpToSpec(tags, multitagSize, i - 1);
      LenSpec(tags, multitagSize, i - 1);
      var sp := SpansUpTo(tags, multitagSize, i);
      var prev := SpansUpTo(tags, multitagSize, i - 1);
      var c := Chain(i - 1, Len(tags, multitagSize, i - 1));
      assert sp == prev + c;
      forall s
        ensures s in sp <==> s.start < i && Generated(tags, multitagSize, s)
      {
        if s.start == i - 1 && Generated(tags, multitagSize, s) {
          assert s == c[s.size - 1];
        }
      }
    }
  }

  /** `create_multitags` emits each generated window exactly once, ordered by
      start position and then size. */
  lemma SpansSpec(tags: seq<Tag>, multitagSize: int)
    ensures Ascending(Spans(tags, multitagSize))
    ensures forall s :: s in Spans(tags, multitagSize) <==> Generated(tags, multitagSize, s)
  {
    SpansUpToSpec(tags, multitagSize, |tags|);
  }

  /** Every span listed fits in the tags. */
  lemma {:induction false} SpansInBounds(tags: seq<Tag>, multitagSize: int, i: nat)
    requires i <= |tags|
    ensures SpansListed(tags, multitagSize, i)
  {
    if i > 0 {
      SpansInBounds(tags, multitagSize, i - 1);
    }
  }

  /** The multitags of a list of windows. */
  function WindowsOf(tags: seq<Tag>, spans: seq<Span>, root: (real, nat) -> real): (ms: seq<MultiTag>)
    requires AllInBounds(tags, spans)
    ensures |ms| == |spans|
  {
    seq(|spans|, k requires 0 <= k < |spans| => Window(tags, spans[k], root))
  }

  /** The multitags `create_multitags` returns. */
  function Multitags(tags: seq<Tag>, multitagSize: int, root: (real, nat) -> real): seq<MultiTag> {
    SpansInBounds(tags, multitagSize, |tags|);
    WindowsOf(tags, Spans(tags, multitagSize), root)
  }

  /** One more size from the same start position adds that window's multitag. */
  lemma ChainWindowsSnoc(tags: seq<Tag>, p: nat, n: nat, root: (real, nat) -> real)
    requires 1 <= p + n + 1 <= |tags|
    ensures AllInBounds(tags, Chain(p, n + 1))
    ensures WindowsOf(tags, Chain(p, n + 1), root) == WindowsOf(tags, Chain(p, n), root) + [Window(tags, Span(p, n + 1), root)]
  {
    var shorter := Chain(p, n);
    assert AllInBounds(tags, shorter) by {
      forall k | 0 <= k < n
        ensures InBounds(tags, shorter[k])
      {
        assert shorter[k] == Span(p, k + 1);
      }
    }
    assert Chain(p, n + 1) == shorter + [Span(p, n + 1)];
    WindowsOfSnoc(tags, shorter, Span(p, n + 1), root);
  }

  /** One more window adds its multitag. */
  lemma WindowsOfSnoc(tags: seq<Tag>, spans: seq<Span>, s: Span, root: (real, nat) -> real)
    requires AllInBounds(tags, spans) && InBounds(tags, s)
    ensures AllInBounds(tags, spans + [s])
    ensures WindowsOf(tags, spans + [s], root) == WindowsOf(tags, spans, root) + [Window(tags, s, root)]
  {
    assert AllInBounds(tags, spans + [s]) by {
      forall k | 0 <= k < |spans| + 1
        ensures InBounds(tags, (spans + [s])[k])
      {
        if k < |spans| {
          assert (spans + [s])[k] == spans[k];
        }
      }
    }
    var a := WindowsOf(tags, spans + [s], root);
    var b := WindowsOf(tags, spans, root) + [Window(tags, s, root)];
    forall k | 0 <= k < |spans| + 1
      ensures a[k] == b[k]
    {
      if k < |spans| {
        assert (spans + [s])[k] == spans[k];
      }
    }
  }

  /** One more start position adds the multitags of its chain of windows. */
  lemma SpansUpToWindows(tags: seq<Tag>, multitagSize: int, i: nat, root: (real, nat) -> real)
    requires i < |tags|
    ensures SpansListed(tags, multitagSize, i) && SpansListed(tags, multitagSize, i + 1)
    ensures WindowsOf(tags, SpansUpTo(tags, multitagSize, i + 1), root)
         == WindowsOf(tags, SpansUpTo(tags, multitagSize, i), root) + WindowsOf(tags, Chain(i, Len(tags, multitagSize, i)), root)
  {
    SpansInBounds(tags, multitagSize, i + 1);
    SpansInBounds(tags, multitagSize, i);
    var a, c := SpansUpTo(tags, multitagSize, i), Chain(i, Len(tags, multitagSize, i));
    assert SpansUpTo(tags, multitagSize, i + 1) == a + c;
  }

  /** Every span listed for the first `i` start positions fits in the tags. */
  predicate SpansListed(tags: seq<Tag>, multitagSize: int, i: nat)
    requires i <= |tags|
  {
    AllInBounds(tags, SpansUpTo(tags, multitagSize, i))
  }
}
