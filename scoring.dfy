/** The scoring stage of `recommend` (js/recommender.js, lines 110-139): each
    merged candidate gets a genre score from the user's liked and disliked
    genre weights, a tag alignment from the user's tag scores over the
    allow-listed tags, and a combined score in which tags amplify genres. */
module Scoring {
  import opened Wrappers
  import opened Dicts
  import opened Anime
  import opened Utils
  import opened Profile

  // ---------------------------------------------------------------- genre alignment

  /** The weights of the candidate's lowered genres summed, 0 for an unweighted genre. */
  function Alignment(genres: seq<string>, weights: Dict<string, real>): real {
    if genres == [] then 0.0
    else Alignment(genres[..|genres| - 1], weights) + weights.Get(Lower(Some(genres[|genres| - 1])), 0.0)
  }

  /** Does some genre of the candidate, once lowered, carry a weight? */
  predicate Overlaps(genres: seq<string>, weights: Dict<string, real>) {
    exists i :: 0 <= i < |genres| && Lower(Some(genres[i])) in weights.table
  }

  /** Against a weight map with weights in (0, 1], the alignment is at most
      one per genre, and it is positive exactly when some genre of the
      candidate is in the map. */
  lemma {:induction false} AlignmentBounds(genres: seq<string>, weights: Dict<string, real>)
    requires forall g :: g in weights.table ==> 0.0 < weights.table[g] <= 1.0
    ensures 0.0 <= Alignment(genres, weights) <= |genres| as real
    ensures Alignment(genres, weights) > 0.0 <==> Overlaps(genres, weights)
  {
    if genres != [] {
      var init := genres[..|genres| - 1];
      AlignmentBounds(init, weights);
      OverlapsLast(genres, weights);
      var w := weights.Get(Lower(Some(genres[|genres| - 1])), 0.0);
      assert 0.0 <= w <= 1.0;
      assert Alignment(genres, weights) == Alignment(init, weights) + w;
    }
  }

  lemma OverlapsLast(genres: seq<string>, weights: Dict<string, real>)
    requires genres != []
    ensures Overlaps(genres, weights) <==>
      Overlaps(genres[..|genres| - 1], weights) || Lower(Some(genres[|genres| - 1])) in weights.table
  {
    var init := genres[..|genres| - 1];
    if Overlaps(init, weights) {
      var i :| 0 <= i < |init| && Lower(Some(init[i])) in weights.table;
      assert genres[i] == init[i];
    }
    if Overlaps(genres, weights) {
      var i :| 0 <= i < |genres| && Lower(Some(genres[i])) in weights.table;
      if i < |init| {
        assert init[i] == genres[i];
      }
    }
  }

  /** The clamp `js/recommender.js` applies to both `genreScore` and
      `tagAlignment`: a liked part minus a weighted disliked part, kept
      within [0, 1]. */
  function PenalisedClamp(pos: real, neg: real, weight: real): (c: real)
    ensures 0.0 <= c <= 1.0
    ensures 0.0 <= pos - weight * neg <= 1.0 ==> c == pos - weight * neg
  {
    Clamp(pos - weight * neg, 0.0, 1.0)
  }

  // ---------------------------------------------------------------- tag alignment

  /** The four accumulators of the tag loop. */
  datatype TagSums = TagSums(posNum: real, posDen: real, negNum: real, negDen: real)

  /** One tag, as the `forEach` callback handles it: skipped unless its lowered
      name is allow-listed; otherwise a positive user weight adds
      `weight * rel` and `weight` to the positive side, a negative one adds
      its magnitude to the negative side, and a zero weight changes nothing. */
  function AddTagSum(acc: TagSums, t: Tag, weights: Dict<string, real>, relevant: seq<string>): TagSums {
    var k := Lower(Some(t.name));
    if k !in relevant then acc
    else
      var rel := Relevance(t.rank);
      var w := weights.Get(k, 0.0);
      if w > 0.0 then acc.(posNum := acc.posNum + Weigh(w, rel), posDen := acc.posDen + w)
      else if w < 0.0 then acc.(negNum := acc.negNum + Weigh(Abs(w), rel), negDen := acc.negDen + Abs(w))
      else acc
  }

  /** The accumulators after the `forEach` over a candidate's tags. */
  function TagSumsOf(tags: seq<Tag>, weights: Dict<string, real>, relevant: seq<string>): TagSums {
    if tags == [] then TagSums(0.0, 0.0, 0.0, 0.0)
    else AddTagSum(TagSumsOf(tags[..|tags| - 1], weights, relevant), tags[|tags| - 1], weights, relevant)
  }

  /** The tag loop of one candidate, updating `posNum`, `posDen`, `negNum`
      and `negDen` in place. */
  method AccumulateTagSums(tags: seq<Tag>, weights: Dict<string, real>, relevant: seq<string>)
    returns (posNum: real, posDen: real, negNum: real, negDen: real)
    ensures TagSums(posNum, posDen, negNum, negDen) == TagSumsOf(tags, weights, relevant)
  {
    posNum, posDen, negNum, negDen := 0.0, 0.0, 0.0, 0.0;
    var i := 0;
    while i < |tags|
      invariant 0 <= i <= |tags|
      invariant TagSums(posNum, posDen, negNum, negDen) == TagSumsOf(tags[..i], weights, relevant)
    {
      var t := tags[i];
      var k := Lower(Some(t.name));
      if k in relevant {
        var rel := Relevance(t.rank);
        var w := weights.Get(k, 0.0);
        if w > 0.0 {
          posNum := posNum + Weigh(w, rel);
          posDen := posDen + w;
        } else if w < 0.0 {
          negNum := negNum + Weigh(Abs(w), rel);
          negDen := negDen + Abs(w);
        }
      }
      assert tags[..i + 1][..i] == tags[..i];
      i := i + 1;
    }
    assert tags[..i] == tags;
  }

  /** A weight times a relevance in [0, 1] lies between 0 and the weight. */
  lemma ScaledByRelevance(w: real, rel: real)
    requires w > 0.0 && 0.0 <= rel <= 1.0
    ensures 0.0 <= Weigh(w, rel) <= w
  {
    assert w - w * rel == w * (1.0 - rel);
  }

  /** Tags whose names are not allow-listed leave every accumulator at 0. */
  predicate NoRelevantTag(tags: seq<Tag>, relevant: seq<string>) {
    forall i :: 0 <= i < |tags| ==> Lower(Some(tags[i].name)) !in relevant
  }

  /** With ranks that are not negative, each numerator lies between 0 and its
      denominator; and nothing accumulates without an allow-listed tag. */
  lemma {:induction false} TagSumsBounds(tags: seq<Tag>, weights: Dict<string, real>, relevant: seq<string>)
    requires forall i :: 0 <= i < |tags| ==> tags[i].rank >= 0
    ensures var s := TagSumsOf(tags, weights, relevant);
      && 0.0 <= s.posNum <= s.posDen
      && 0.0 <= s.negNum <= s.negDen
      && (NoRelevantTag(tags, relevant) ==> s == TagSums(0.0, 0.0, 0.0, 0.0))
  {
    if tags != [] {
      var init, t := tags[..|tags| - 1], tags[|tags| - 1];
      TagSumsBounds(init, weights, relevant);
      var k := Lower(Some(t.name));
      var w := weights.Get(k, 0.0);
      var rel := Relevance(t.rank);
      if w > 0.0 {
        ScaledByRelevance(w, rel);
      } else if w < 0.0 {
        ScaledByRelevance(Abs(w), rel);
      }
      if NoRelevantTag(tags, relevant) {
        assert NoRelevantTag(init, relevant) by {
          forall i | 0 <= i < |init| ensures Lower(Some(init[i].name)) !in relevant {
            assert init[i] == tags[i];
          }
        }
      }
    }
  }

  /** `den ? num / den : 0`. */
  function Ratio(num: real, den: real): (r: real)
    ensures 0.0 <= num <= den ==> 0.0 <= r <= 1.0
    ensures den == 0.0 ==> r == 0.0
  {
    if den != 0.0 then
      if 0.0 <= num <= den then FractionAtMostOne(num, den); num / den
      else num / den
    else 0.0
  }

  // ---------------------------------------------------------------- combination

  /** `Math.pow(x, n)` for a whole exponent. */
  function Pow(x: real, n: nat): (r: real)
    ensures 0.0 <= x <= 1.0 ==> 0.0 <= r <= 1.0
  {
    if n == 0 then 1.0
    else
      UnitProduct(x, Pow(x, n - 1));
      x * Pow(x, n - 1)
  }

  lemma UnitProduct(x: real, y: real)
    ensures 0.0 <= x <= 1.0 && 0.0 <= y <= 1.0 ==> 0.0 <= x * y <= 1.0
  {
    if 0.0 <= x <= 1.0 && 0.0 <= y <= 1.0 {
      MulMono(x, 1.0, y, 1.0);
      MulMono(0.0, x, 0.0, y);
    }
  }

  lemma MulMono(a: real, b: real, c: real, d: real)
    requires 0.0 <= a <= b && 0.0 <= c <= d
    ensures a * c <= b * d
  {
    assert b * d - a * c == b * (d - c) + c * (b - a);
  }

  /** On [0, 1], a higher base gives a higher (or equal) power. */
  lemma {:induction false} PowMonotone(x: real, y: real, n: nat)
    requires 0.0 <= x <= y <= 1.0
    ensures Pow(x, n) <= Pow(y, n)
  {
    if n > 0 {
      PowMonotone(x, y, n - 1);
      MulMono(x, y, Pow(x, n - 1), Pow(y, n - 1));
    }
  }

  /** `combined`: with liked genres, the genre score amplified by the tag
      alignment; without them, the tag alignment alone. */
  function Combine(hasPos: bool, gs: real, ta: real, mult: real, exp: nat): (c: real)
    ensures !hasPos ==> c == ta
    ensures hasPos && gs == 0.0 ==> c == 0.0
    ensures hasPos && 0.0 <= gs <= 1.0 && 0.0 <= ta <= 1.0 && mult >= 0.0 ==> gs <= c <= 1.0 + mult
  {
    if !hasPos then ta
    else if 0.0 <= gs <= 1.0 && 0.0 <= ta <= 1.0 && mult >= 0.0 then
      AmplifiedBounds(gs, Pow(ta, exp), mult);
      Amplified(gs, Pow(ta, exp), mult)
    else Amplified(gs, Pow(ta, exp), mult)
  }

  /** `gs * (1 + mult * p)`: the genre score raised by the weighted tag term. */
  function Amplified(gs: real, p: real, mult: real): real {
    gs * (1.0 + mult * p)
  }

  lemma AmplifiedBounds(gs: real, p: real, mult: real)
    requires 0.0 <= gs <= 1.0 && 0.0 <= p <= 1.0 && mult >= 0.0
    ensures gs <= Amplified(gs, p, mult) <= 1.0 + mult
  {
    assert gs * (1.0 + mult * p) == gs + gs * (mult * p);
    MulMono(0.0, mult, p, p);
    MulMono(mult, mult, p, 1.0);
    MulMono(gs, 1.0, mult * p, mult * p);
    MulMono(0.0, gs, mult * p, mult * p);
  }

  lemma AmplifyMonotone(gs: real, p1: real, p2: real, mult: real)
    requires 0.0 <= gs && p1 <= p2 && mult >= 0.0
    ensures Amplified(gs, p1, mult) <= Amplified(gs, p2, mult)
  {
    assert gs * (1.0 + mult * p2) - gs * (1.0 + mult * p1) == gs * (mult * (p2 - p1));
    MulMono(0.0, mult, p2 - p1, p2 - p1);
    MulMono(0.0, gs, mult * (p2 - p1), mult * (p2 - p1));
  }

  /** With liked genres, a better tag alignment never lowers the combined
      score of a candidate with the same genre score. */
  lemma CombineMonotoneInTags(gs: real, ta1: real, ta2: real, mult: real, exp: nat)
    requires 0.0 <= gs && 0.0 <= ta1 <= ta2 <= 1.0 && mult >= 0.0
    ensures Combine(true, gs, ta1, mult, exp) <= Combine(true, gs, ta2, mult, exp)
  {
    PowMonotone(ta1, ta2, exp);
    AmplifyMonotone(gs, Pow(ta1, exp), Pow(ta2, exp), mult);
  }

  // ---------------------------------------------------------------- one candidate

  /** The record `candidates.map` produces for one candidate. */
  function ScoreCandidate(m: Media, p: UserProfile, cfg: Config): (s: Scored)
    ensures s.media == m
    ensures 0.0 <= s.genreScore <= 1.0 && 0.0 <= s.tagAlignment <= 1.0
    ensures p.posGenreWeights.order == [] ==> s.combined == s.tagAlignment
    ensures p.posGenreWeights.order != [] && s.genreScore == 0.0 ==> s.combined == 0.0
    ensures cfg.tagMultiplier >= 0.0 ==> 0.0 <= s.combined <= 1.0 + cfg.tagMultiplier
    ensures cfg.tagMultiplier >= 0.0 && p.posGenreWeights.order != [] ==> s.genreScore <= s.combined
  {
    var gs := PenalisedClamp(Alignment(m.genres, p.posGenreWeights), Alignment(m.genres, p.negGenreWeights), cfg.negGenrePenalty);
    var sums := TagSumsOf(m.tags, p.tagScores, cfg.relevantTags);
    var posScore := Ratio(sums.posNum, sums.posDen);
    var negScore := Ratio(sums.negNum, sums.negDen);
    var ta := PenalisedClamp(posScore, negScore, cfg.negativeTagFactor);
    Scored(m, gs, ta, Combine(|p.posGenreWeights.order| > 0, gs, ta, cfg.tagMultiplier, cfg.tagExponent), posScore, negScore)
  }

  /** With tag ranks in 0..100 the two tag match scores are themselves in [0, 1]. */
  lemma TagScoresInRange(m: Media, p: UserProfile, cfg: Config)
    requires forall i :: 0 <= i < |m.tags| ==> m.tags[i].rank >= 0
    ensures var s := ScoreCandidate(m, p, cfg);
      && 0.0 <= s.posScore <= 1.0 && 0.0 <= s.negScore <= 1.0
      && (NoRelevantTag(m.tags, cfg.relevantTags) ==> s.posScore == 0.0 && s.negScore == 0.0 && s.tagAlignment == 0.0)
  {
    TagSumsBounds(m.tags, p.tagScores, cfg.relevantTags);
  }

  /** A candidate sharing no genre with the liked genres gets genre score 0
      (the disliked side can only lower it, and the clamp stops at 0); so,
      when the user likes some genre, its combined score is 0 too. */
  lemma NoLikedGenreNoScore(m: Media, p: UserProfile, cfg: Config)
    requires Distribution(p.posGenreWeights) && Distribution(p.negGenreWeights)
    requires cfg.negGenrePenalty >= 0.0
    requires !Overlaps(m.genres, p.posGenreWeights)
    ensures ScoreCandidate(m, p, cfg).genreScore == 0.0
    ensures p.posGenreWeights.order != [] ==> ScoreCandidate(m, p, cfg).combined == 0.0
  {
    AlignmentBounds(m.genres, p.posGenreWeights);
    AlignmentBounds(m.genres, p.negGenreWeights);
    var pos, neg := Alignment(m.genres, p.posGenreWeights), Alignment(m.genres, p.negGenreWeights);
    NothingLikedClampsToZero(pos, neg, cfg.negGenrePenalty);
    assert ScoreCandidate(m, p, cfg).genreScore == PenalisedClamp(pos, neg, cfg.negGenrePenalty);
  }

  lemma NothingLikedClampsToZero(pos: real, neg: real, penalty: real)
    requires pos == 0.0 && neg >= 0.0 && penalty >= 0.0
    ensures PenalisedClamp(pos, neg, penalty) == 0.0
  {
    MulMono(0.0, penalty, 0.0, neg);
  }

  /** One candidate scored as the source does it, with the tag loop run in place. */
  method ScoreOne(m: Media, p: UserProfile, cfg: Config) returns (s: Scored)
    ensures s == ScoreCandidate(m, p, cfg)
  {
    var posAlign := Alignment(m.genres, p.posGenreWeights);
    var negAlign := Alignment(m.genres, p.negGenreWeights);
    var gs := PenalisedClamp(posAlign, negAlign, cfg.negGenrePenalty);
    var posNum, posDen, negNum, negDen := AccumulateTagSums(m.tags, p.tagScores, cfg.relevantTags);
    var posScore := Ratio(posNum, posDen);
    var negScore := Ratio(negNum, negDen);
    var ta := PenalisedClamp(posScore, negScore, cfg.negativeTagFactor);
    var combined := Combine(|p.posGenreWeights.order| > 0, gs, ta, cfg.tagMultiplier, cfg.tagExponent);
    s := Scored(m, gs, ta, combined, posScore, negScore);
  }

  /** `candidates.map(...)`: every candidate scored, in order. */
  method ScoreAll(cands: seq<Media>, p: UserProfile, cfg: Config) returns (scored: seq<Scored>)
    ensures |scored| == |cands|
    ensures forall i :: 0 <= i < |cands| ==> scored[i] == ScoreCandidate(cands[i], p, cfg)
  {
    scored := [];
    var i := 0;
    while i < |cands|
      invariant 0 <= i <= |cands|
      invariant |scored| == i
      invariant forall j :: 0 <= j < i ==> scored[j] == ScoreCandidate(cands[j], p, cfg)
    {
      var s := ScoreOne(cands[i], p, cfg);
      scored := scored + [s];
      i := i + 1;
    }
  }
}
