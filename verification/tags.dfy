/** The tag value model: unit tags and the multitags grown from them. */
module Tags {
  import opened Text

  /** A unit tag. `str` is the lower-cased surface text, `stem` its canonical
      form (the tag's identity), `rating` the relevance the rater assigns,
      `proper` the proper-noun flag and `terminal` the end-of-phrase flag. */
  datatype Tag = Tag(str: string, stem: string, rating: real, proper: bool, terminal: bool)

  /** A tag made of `size` adjacent unit tags; `stems` are their stems in order. */
  datatype MultiTag = MultiTag(
    str: string, stems: seq<string>, rating: real, score: real,
    proper: bool, terminal: bool, size: nat)
  {
    /** The `stem` attribute: the unit stems joined by single spaces. */
    function Stem(): string {
      Join(stems)
    }
  }

  /** `x ** n` for a natural exponent. */
  function Pow(x: real, n: nat): real {
    if n == 0 then 1.0 else x * Pow(x, n - 1)
  }

  /** `root(x, n)` is the non-negative n-th root of a non-negative `x`, the value
      of `x ** (1.0 / n)` computed with exact reals. */
  ghost predicate IsRoot(root: (real, nat) -> real) {
    forall x: real, n: nat :: 0.0 <= x && 1 <= n ==> 0.0 <= root(x, n) && Pow(root(x, n), n) == x
  }

  lemma {:induction false} PowPositive(y: real, n: nat)
    requires y > 0.0
    ensures Pow(y, n) > 0.0
  {
    if n > 0 {
      PowPositive(y, n - 1);
    }
  }

  lemma {:induction false} PowNonNegative(y: real, n: nat)
    requires y >= 0.0
    ensures Pow(y, n) >= 0.0
  {
    if n > 0 {
      PowNonNegative(y, n - 1);
      MulNonNegative(y, Pow(y, n - 1));
    }
  }

  /** The n-th root is the identity for n = 1 and is positive exactly when its
      argument is. */
  lemma RootLaws(root: (real, nat) -> real, x: real, n: nat)
    requires IsRoot(root) && 0.0 <= x && 1 <= n
    ensures 0.0 <= root(x, n)
    ensures n == 1 ==> root(x, n) == x
    ensures root(x, n) > 0.0 <==> x > 0.0
  {
    var y := root(x, n);
    assert Pow(y, n) == x;
    if y > 0.0 {
      PowPositive(y, n);
    } else {
      assert Pow(y, n) == 0.0;
    }
  }

  /** `Tag.__eq__` and `Tag.__hash__`: tags are the same when their stems
      are. Over word stems, comparing the joined stem strings is comparing the
      stem sequences, so a multitag may be keyed by its sequence of unit stems. */
  predicate SameTag(a: MultiTag, b: MultiTag): (same: bool)
    ensures a.stems == b.stems ==> same
    ensures AllWords(a.stems) && AllWords(b.stems) ==> (same <==> a.stems == b.stems)
  {
    if AllWords(a.stems) && AllWords(b.stems) then
      JoinInjective(a.stems, b.stems);
      a.Stem() == b.Stem()
    else
      a.Stem() == b.Stem()
  }

  /** Every string of the sequence is a word. */
  predicate AllWords(ws: seq<string>) {
    forall i :: 0 <= i < |ws| ==> IsWord(ws[i])
  }

  /** `Tag.__lt__`: `a` sorts before `b` when its score is higher, so a tie
      orders neither way and `Precedes` is never symmetric. */
  predicate Precedes(a: MultiTag, b: MultiTag): (p: bool)
    ensures p ==> b.score < a.score
    ensures a.score == b.score ==> !p
  {
    a.score > b.score
  }

  /** `Precedes` is a strict order, so sorting with it is well defined (a fact
      of `>` on reals, kept as documentation of the ordering). */
  lemma PrecedesIsStrictOrder(a: MultiTag, b: MultiTag, c: MultiTag)
    ensures !Precedes(a, a)
    ensures Precedes(a, b) ==> !Precedes(b, a)
    ensures Precedes(a, b) && Precedes(b, c) ==> Precedes(a, c)
  {
  }

  /** `MultiTag(tail)`: a one-tag multitag copying the unit tag, of size 1
      and with its rating as score. */
  function Single(t: Tag): (r: MultiTag)
    ensures r.Stem() == t.stem && r.str == t.str && r.stems == [t.stem]
    ensures r.size == 1 && r.score == r.rating == t.rating
    ensures r.proper == t.proper && r.terminal == t.terminal
  {
    MultiTag(t.str, [t.stem], t.rating, t.rating, t.proper, t.terminal, 1)
  }

  /** `MultiTag(tail, head)`: `head` grown by one more unit tag. The rating is
      the product of the two ratings, except that a proper result whose
      product is 0 gets the square of the larger rating; the score is the
      size-th root of the rating (see `ExtendLaws`). */
  function Extend(head: MultiTag, tail: Tag, root: (real, nat) -> real): (r: MultiTag)
    ensures r.str == head.str + " " + tail.str && r.stems == head.stems + [tail.stem]
    ensures r.size == head.size + 1
    ensures (r.proper <==> head.proper && tail.proper) && r.terminal == tail.terminal
  {
    var proper := head.proper && tail.proper;
    var product := head.rating * tail.rating;
    var rating := if proper && product == 0.0 then Pow(Max(head.rating, tail.rating), 2) else product;
    MultiTag(head.str + " " + tail.str, head.stems + [tail.stem], rating,
             root(rating, head.size + 1), proper, tail.terminal, head.size + 1)
  }

  function Max(a: real, b: real): real {
    if a >= b then a else b
  }

  /** What growing a multitag by one unit tag does to each attribute. */
  lemma ExtendLaws(head: MultiTag, tail: Tag, root: (real, nat) -> real)
    requires |head.stems| >= 1 && head.size == |head.stems|
    requires IsRoot(root) && head.rating >= 0.0 && tail.rating >= 0.0
    ensures var r := Extend(head, tail, root);
      && r.Stem() == head.Stem() + " " + tail.stem
      && r.str == head.str + " " + tail.str
      && r.size == head.size + 1 == |r.stems|
      && (r.proper <==> head.proper && tail.proper)
      && r.terminal == tail.terminal
      && r.rating >= 0.0
      && (!r.proper || head.rating * tail.rating != 0.0 ==> r.rating == head.rating * tail.rating)
      && (r.proper && head.rating * tail.rating == 0.0 ==>
            r.rating == Max(head.rating, tail.rating) * Max(head.rating, tail.rating))
      && (r.proper && (head.rating > 0.0 || tail.rating > 0.0) ==> r.rating > 0.0)
      && (r.score > 0.0 <==> r.rating > 0.0)
      && Pow(r.score, r.size) == r.rating
  {
    var r := Extend(head, tail, root);
    JoinSnoc(head.stems, tail.stem);
    var h, t := head.rating, tail.rating;
    var m, p := Max(h, t), h * t;
    assert p >= 0.0 by { MulNonNegative(h, t); }
    if r.proper && p == 0.0 {
      assert Pow(m, 1) == m;
      assert r.rating == Pow(m, 2) == m * m;
      if h > 0.0 || t > 0.0 {
        PowPositive(m, 2);
      } else {
        PowNonNegative(m, 2);
      }
    } else {
      assert r.rating == p;
      if r.proper {
        assert p != 0.0;
        assert p > 0.0;
      }
    }
    RootLaws(root, r.rating, r.size);
  }

  /** Two positive ratings multiply without any proper-noun promotion. */
  lemma ExtendPositive(head: MultiTag, tail: Tag, root: (real, nat) -> real)
    requires head.rating > 0.0 && tail.rating > 0.0
    ensures Extend(head, tail, root).rating == head.rating * tail.rating > 0.0
  {
    MulPositive(head.rating, tail.rating);
  }

  lemma MulPositive(a: real, b: real)
    requires a > 0.0 && b > 0.0
    ensures a * b > 0.0
  {
  }

  lemma MulNonNegative(a: real, b: real)
    requires a >= 0.0 && b >= 0.0
    ensures a * b >= 0.0
  {
  }

}
