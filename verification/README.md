# tagger — a verified model of the keyword extractor

`tagger.py` extracts the most relevant tags (single words or short phrases)
from a text. The reader turns the text into *unit tags*: lower-cased words
flagged as proper nouns or as the end of a phrase. The stemmer gives each
tag a *stem*, and tags with equal stems are the same tag. The rater then does
the following:

- rates every unit tag by its term frequency, scaled by a per-stem weight;
- grows *multitags* from every run of up to `multitag_size` adjacent unit
  tags that does not cross the end of a phrase;
- counts the multitags by stem;
- shows each stem with its most frequent surface string;
- discards redundant tags: a phrase that is not frequent enough compared
  with its parts, or a part that the phrase subsumes;
- sorts the rest by score, highest first.

The tagger returns the first N tags of that ranking.

The model is organised as follows:

| module | file | models |
|---|---|---|
| `Text` | `text.dfy` | Python 2 byte-string character classes, `lower()`, `' '.join` and `split()` |
| `Tags` | `tags.dfy` | `Tag` and `MultiTag` as values; a multitag is keyed by the sequence of its unit stems |
| `Stemmer` | `stemmer.dfy` | `pre_stem`, and `Stemmer.__call__` with the stemming algorithm as a parameter |
| `Reader` | `reader.dfy` | flag assignment on phrases that are already split into words |
| `Windows` | `windows.dfy` | the windows `create_multitags` emits |
| `Counts` | `counts.dfy` | the stem-keyed counter, and the proof that every part of a window is counted at least as often as the window |
| `Pruning` | `pruning.dfy` | the redundancy test, stated independently of loop order |
| `Clusters` | `clusters.dfy` | the counter's representative of each stem, and the choice of its displayed string |
| `Rating` | `rater.dfy` | the `Rater` class: its loops, as methods proved against the functions above |
| `Tagging` | `tagger.dfy` | the `Tagger` class and the final slice |

Ratings are exact reals. The fractional power `rating ** (1.0 / size)` is a
function parameter `root`. The lemmas that need it assume `IsRoot(root)`,
which says that `root(x, n)` is the non-negative number whose n-th power is
`x`.

## Model

| member | source | states |
|---|---|---|
| `Text.Lower` | tagger.py:200 | `w.lower()` keeps the length, leaves no upper-case letter and changes nothing else |
| `Text.Split` | tagger.py:340 | every piece `split()` returns is a non-empty string with no whitespace |
| `Text.SplitJoin` | tagger.py:340 | `' '.join(ws).split()` gives back `ws` whenever every piece is a word |
| `Text.JoinInjective` | tagger.py:151 | two word sequences join to the same stem string exactly when they are equal |
| `Text.JoinSnoc` | tagger.py:151 | joining one more word appends a space and that word |
| `Tags.SameTag` | tagger.py:117-127 | `__eq__` compares stems; over word stems two multitags are equal (and hash alike) exactly when their stem sequences are equal, so a multitag may be keyed by its stem sequence |
| `Tags.Precedes` | tagger.py:123-124 | the reversed `__lt__`: a tag precedes another only if its score is strictly higher, and never when the scores are equal |
| `Tags.PrecedesIsStrictOrder` | tagger.py:123-124 | the reversed `__lt__` (higher score first) is irreflexive, asymmetric and transitive |
| `Tags.RootLaws` | tagger.py:163 | `x ** (1/n)` is non-negative, is `x` itself for n = 1, and is positive exactly when `x` is |
| `Tags.Single` | tagger.py:145-148 | a one-tag multitag copies string, stem, proper and terminal from the unit tag, has size 1 and has score equal to rating |
| `Tags.Extend` | tagger.py:149-156 | extension: string and stem gain a space and the tail's; size goes up by one; proper is the conjunction; terminal comes from the tail |
| `Tags.ExtendLaws` | tagger.py:149-163 | the extension's string, stems, size, proper and terminal as `Extend` states them. The rating is the product unless the result is proper and the product is 0; in that case it is the square of the larger part rating, which is positive when either part is. The score is positive iff the rating is, and score^size == rating |
| `Tags.ExtendPositive` | tagger.py:159-162 | two positive ratings multiply to a positive rating, with no proper-noun promotion |
| `Stemmer.WordRun` | tagger.py:223 | the length of the maximal run of `\w` characters at the start of the string |
| `Stemmer.PreStem` | tagger.py:241-253 | the result is a prefix of the input; when a non-empty `\w` run is followed by an apostrophe the result is that run, whatever follows; otherwise the input is unchanged |
| `Stemmer.PreStemIdempotent` | tagger.py:250-253 | pre-stemming a pre-stemmed string changes nothing |
| `Stemmer.PreStemCutsExamples` | tagger.py:223 | `o'neill` gives `o`, `don't` gives `don`, `obama's` gives `obama` |
| `Stemmer.PreStemKeepsExamples` | tagger.py:223 | `'tis` and `al-qaida` are returned unchanged |
| `Stemmer.StemTag` | tagger.py:256-267 | stemming sets the stem to the algorithm applied to the pre-stemmed string, and keeps string, rating, proper and terminal |
| `Stemmer.ContractionSharesStem` | tagger.py:256-267 | a word and its contraction or possessive get the same stem whatever the algorithm; stemming changes only the stem |
| `Reader.PhraseTags` | tagger.py:199-209 | one tag per word of a phrase; the k-th is the lower-cased word with rating 1.0, terminal iff it is the last word, and proper iff it is not the first word and is capitalised |
| `Reader.AppendPhrase` | tagger.py:199-209 | the appends for one phrase extend the tag list by exactly that phrase's tags |
| `Reader.ReadAllShape` | tagger.py:197-211 | one tag per word of every phrase, and a non-empty result ends with a terminal tag |
| `Reader.Read` | tagger.py:195-211 | the append loop builds exactly the phrase-by-phrase tags of `ReadAll` |
| `Tagging.ReadAllWords` | tagger.py:197-209 | every tag the reader makes from words has a word as its string |
| `Windows.Generated` | tagger.py:298-306 | a window the loops emit lies inside the tags, is within the size cap, and, when longer than one tag, does not start on a terminal tag |
| `Windows.Window` | tagger.py:299-306 | the multitag built over a window has the window's size, one stem per tag, and is terminal iff its last tag is |
| `Windows.WindowShape` | tagger.py:299-306 | the multitag built over a window carries the window's stems in order, has its size, is proper iff all its tags are, and is terminal iff its last tag is |
| `Windows.WindowRating` | tagger.py:158-163 | over non-negative unit ratings, a window's rating is non-negative, score^size == rating, and the score is positive iff the rating is |
| `Windows.GeometricMean` | tagger.py:158-159 | when every unit rating is positive, the rating is the product of the unit ratings, so the score is their geometric mean |
| `Windows.ReachSpec` | tagger.py:301-306 | from a generated window, the extension loop stops exactly at the last size that is still generated |
| `Windows.LenSpec` | tagger.py:298-306 | the windows from one start position are exactly sizes 1 to `Len`, and at least the size-1 window is always emitted |
| `Windows.SpansUpToSpec` | tagger.py:298-306 | the first i start positions emit, once each and ordered by start then size, exactly the generated windows starting below i |
| `Windows.SpansSpec` | tagger.py:295-308 | `create_multitags` emits each window that is within the size cap and has no terminal tag before its last position; it emits each exactly once, in order |
| `Rating.Rater.CreateMultitags` | tagger.py:295-308 | the nested loops return the multitags of exactly those windows, in that order |
| `Counts.CountIn` | tagger.py:327 | a key's count is at most the number of multitags, and it is positive iff the key occurs |
| `Counts.CountIsPositions` | tagger.py:327 | counting a key among the generated multitags is counting the start positions where that key is generated |
| `Counts.SubOccurs` | tagger.py:340-343 | a contiguous part `words[i:i+j]` of a generated window is itself generated, at the shifted position |
| `Counts.SubPosCount` | tagger.py:343-344 | a contiguous part of a key occurs at no fewer positions than the key |
| `Counts.SubWindowCount` | tagger.py:339-344 | every proper sub-window of a generated key is generated, and counted at least as often as the key (at least once) |
| `Rating.GeneratedSubsCounted` | tagger.py:339-344 | the counter has a positive count for every sub-window of every key, at least the key's own count, so `relative_freq` never divides by zero and lies in (0, 1] |
| `Rating.KeysAreWords` | tagger.py:340 | over word stems, every generated key is a sequence of words, so `t.stem.split()` recovers it |
| `Pruning.Keeps` | tagger.py:344-346 | on integer counts, the test on `relative_freq` means: equal counts and proper, or twice the count reaches the sub-window's count and the score is positive |
| `Pruning.Survivors` | tagger.py:337-349 | every key left after pruning is counted and has a string longer than one character |
| `Pruning.SurvivorsAreUndiscarded` | tagger.py:337-349 | a key survives iff it is counted, its string is longer than one character, every one of its checks keeps it, and no check of a longer key over it keeps that key; this holds in any loop order |
| `Rating.CheckKey` | tagger.py:340-349 | the checks of one key discard exactly what some check of that key discards |
| `Rating.Prune` | tagger.py:337-349 | the set built by the pruning loop is exactly `Survivors` |
| `Clusters.FirstIndex` | tagger.py:327 | the position of the first multitag with a key, whose object the counter keeps |
| `Clusters.BestUpToSpec` | tagger.py:334 | scanning the surfaces of a key, the choice is a surface seen with that key, with a count no smaller than any surface scanned |
| `Clusters.BestSurface` | tagger.py:330-334 | `most_common(1)` gives a string seen with the key whose count is maximal among the key's strings |
| `Clusters.CountMap` | tagger.py:327 | the counter's keys are exactly the stem sequences of the multitags, and every count lies between 1 and the number of multitags |
| `Clusters.RepMap` | tagger.py:327-334 | one representative per counted key, carrying that key's stems |
| `Rating.CountMultitags` | tagger.py:327 | the counting loop yields `CountMap`, and for each key it keeps the first multitag generated |
| `Rating.ChooseSurfaces` | tagger.py:330-334 | the cluster loop and the `most_common` choice yield `RepMap`: the first multitag of each key, with its most frequent string |
| `Rating.Occurrences` | tagger.py:319 | `Counter(tags)[t]` is at most the number of tags, and positive iff some tag has that stem |
| `Rating.RatedUnits` | tagger.py:321-323 | the rating loop's result has one tag per unit tag, in order, and changes nothing but the rating |
| `Rating.UnitRatingBounds` | tagger.py:319-323 | rating changes only the rating; tags with equal stems get equal ratings; a rating lies in (0, 1] when the stem has no weight, and between 0 and the weight otherwise |
| `Rating.RatedNonNegative` | tagger.py:321-323 | with non-negative weights every unit rating is non-negative |
| `Rating.Rater.AssignRatings` | tagger.py:319-323 | the counting loop and the rating loop give each tag its stem's relative frequency times the stem's weight |
| `Rating.RepScores` | tagger.py:158-163 | every candidate's rating is non-negative, score^size == rating, its score is positive iff its rating is, and its size is its number of stems |
| `Rating.DistinctTags` | tagger.py:337 | multitags with distinct keys are distinct tags under `__eq__` |
| `Rating.SortByScore` | tagger.py:351 | `sorted` lists the representative of every kept key exactly once, in non-increasing score |
| `Rating.Rater.constructor` | tagger.py:280-293 | the rater keeps its weights and its multitag size |
| `Rating.Rater.Rate` | tagger.py:310-351 | returns the representatives of exactly the surviving keys, each once and highest score first; no two entries are equal tags, every string is longer than one character, and empty input gives `[]` |
| `Tagging.SliceEnd` | tagger.py:391 | `tags[:n]` keeps the first min(n, len) entries for n ≥ 0, and drops the last -n entries for n < 0 |
| `Tagging.StemAll` | tagger.py:388 | `map(self.stemmer, tags)`: one stemmed tag per tag, in order, keeping the string and the proper flag and stemming the pre-stemmed string |
| `Tagging.StemAllWords` | tagger.py:388 | with an algorithm that maps words to words, every stemmed tag's stem is a word |
| `Tagging.RankingTop` | tagger.py:391 | the first n entries of a ranking: as many as the slice keeps, all kept keys, highest first, and no key left out scores higher than one kept |
| `Tagging.Tagger.constructor` | tagger.py:362-375 | the tagger keeps its stemming algorithm and its rater |
| `Tagging.Tagger.TagText` | tagger.py:377-391 | read, stem, rate and slice: the result is the top `tags_number` of the surviving stemmed multitags, as `RankingTop` describes |

## Left out

- Regex tokenisation in `Reader.__call__` (tagger.py:176-178, 190-193, 198) is out of scope. The model reads phrases already split into words.
- `Reader.Read`: requires every word to be non-empty and free of whitespace. The `findall` pattern at tagger.py:178 only yields such words.
- The Porter2 algorithm (tagger.py:235-239, 266) is a library outside this repository. It is the parameter `algorithm` of `StemTag` and `Tagger`.
- `Tagging.Tagger.TagText`: requires the stemming algorithm to map words to non-empty stems without whitespace. Stems are split on whitespace at tagger.py:340.
- `Rating.Rater.Rate`: requires every unit stem to be a word. Only under that condition does splitting a joined stem recover its parts (`Text.SplitJoin`), so keying by the stem sequence matches keying by the stem string.
- Floating-point rounding is not modelled; ratings are exact reals.
- The fractional power at tagger.py:163 is a parameter. Only `IsRoot` is assumed about it.
- `Rating.UnitRatingBounds`, `Rating.RatedNonNegative`, `Rating.RepScores`: these assume non-negative weights, as the `Rater.__init__` documentation asks (tagger.py:284-285). With a negative weight, the fractional power of a negative float raises an error, and that error is not modelled.
- `Clusters.BestSurface`: `most_common(1)` breaks ties by Python 2 dictionary order. The model picks the first maximal string met and only promises "a maximal string".
- `Rating.SortByScore`: `sorted` breaks score ties by set iteration order. The model promises only a non-increasing score.
- Mutation in place is modelled on values. `Stemmer.__call__` writing `tag.stem`, and the rater overwriting `t.rating` and `t.string`, produce new values. So aliasing between the caller's tags and the rater's objects is not captured.
- `Rating.Prune` runs the per-key checks of tagger.py:340-349 through the method `Rating.CheckKey`. The order of the checks is unchanged.
- `Tag.__repr__` (tagger.py:120-121) and the script block (tagger.py:395-415) are printing and file I/O.
- `Tagging.Tagger`: the Python tagger accepts any reader, stemmer and rater callables (tagger.py:362-375). The model fixes the reader to `Reader.Read` and the stemmer to `Stemmer.StemTag`, with only the stemming algorithm as a parameter; the rater is the modelled `Rating.Rater`. Other readers, stemmers and raters are not modelled.
- `build_dict.py` and `extras.py` are not part of this model. The weights are an input map.
