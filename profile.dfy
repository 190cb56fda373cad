/** The first stage of `recommend` (js/recommender.js, lines 9-73): from the
    user's list entries to the watched-id set, the user's mean score, the
    per-genre affinities split into liked and disliked weight maps, and the
    per-tag affinities. */
module Profile {
  import opened Wrappers
  import opened Seqs
  import opened Dicts
  import opened Anime
  import opened Utils

  // ---------------------------------------------------------------- watched, rated, mean

  /** `watchedIds`: the media id of every entry, missing ids (0) dropped. */
  function WatchedIds(entries: seq<Entry>): (w: set<int>)
    ensures 0 !in w
    ensures forall i :: 0 <= i < |entries| && entries[i].media.id != 0 ==> entries[i].media.id in w
    ensures forall id :: id in w ==> exists i :: 0 <= i < |entries| && entries[i].media.id == id
  {
    set i | 0 <= i < |entries| && entries[i].media.id != 0 :: entries[i].media.id
  }

  /** `ratedEntries`: the positively scored entries, or every entry when none is. */
  function RatedEntries(entries: seq<Entry>): (rated: seq<Entry>)
    ensures entries != [] ==> rated != []
    ensures forall i :: 0 <= i < |rated| ==> rated[i] in entries
    ensures (exists i :: 0 <= i < |entries| && entries[i].score > 0.0) ==>
      && (forall i :: 0 <= i < |rated| ==> rated[i].score > 0.0)
      && (forall i :: 0 <= i < |entries| && entries[i].score > 0.0 ==> entries[i] in rated)
      && (forall x :: multiset(rated)[x] == if x.score > 0.0 then multiset(entries)[x] else 0)
    ensures (forall i :: 0 <= i < |entries| ==> entries[i].score <= 0.0) ==> rated == entries
  {
    var positive := (e: Entry) => e.score > 0.0;
    var scored := Filter(entries, positive);
    FilterMultiset(entries, positive);
    if |scored| > 0 then
      assert scored[0] in entries && scored[0].score > 0.0;
      scored
    else entries
  }

  /** `totalScore`: the sum of the entries' scores. */
  function TotalScore(es: seq<Entry>): real {
    if es == [] then 0.0 else es[0].score + TotalScore(es[1..])
  }

  /** `userMean`: the mean score of the rated entries, 50 when there are none. */
  function UserMean(rated: seq<Entry>): real {
    if |rated| > 0 then TotalScore(rated) / |rated| as real else 50.0
  }

  lemma {:induction false} TotalScoreBounds(es: seq<Entry>, lo: real, hi: real)
    requires forall i :: 0 <= i < |es| ==> lo <= es[i].score <= hi
    ensures |es| as real * lo <= TotalScore(es) <= |es| as real * hi
  {
    if es != [] {
      TotalScoreBounds(es[1..], lo, hi);
    }
  }

  /** The user mean is a mean: it lies between the lowest and the highest
      score it averages. */
  lemma UserMeanBounds(rated: seq<Entry>, lo: real, hi: real)
    requires rated != []
    requires forall i :: 0 <= i < |rated| ==> lo <= rated[i].score <= hi
    ensures lo <= UserMean(rated) <= hi
  {
    var n := |rated| as real;
    TotalScoreBounds(rated, lo, hi);
    DivBounds(TotalScore(rated), n, lo, hi);
  }

  lemma DivBounds(total: real, n: real, lo: real, hi: real)
    requires n > 0.0 && n * lo <= total <= n * hi
    ensures lo <= total / n <= hi
  {
    assert total / n - lo == (total - n * lo) / n;
    assert hi - total / n == (n * hi - total) / n;
  }

  // ---------------------------------------------------------------- genre aggregation

  /** `genreStats[k]`: the summed score and the number of occurrences of genre `k`. */
  datatype GenreStat = GenreStat(sum: real, count: nat)

  /** One genre occurrence, as the inner `forEach` callback handles it: the
      entry's score and one occurrence are added under the lowered name. */
  function AddGenre(stats: Dict<string, GenreStat>, score: real, g: string): (r: Dict<string, GenreStat>)
  {
    var k := Lower(Some(g));
    var cur := stats.Get(k, GenreStat(0.0, 0));
    stats.Set(k, GenreStat(cur.sum + score, cur.count + 1))
  }

  /** The inner `forEach`: adds one entry's genres. */
  function AddGenres(stats: Dict<string, GenreStat>, score: real, genres: seq<string>): (r: Dict<string, GenreStat>)
  {
    if genres == [] then stats
    else AddGenre(AddGenres(stats, score, genres[..|genres| - 1]), score, genres[|genres| - 1])
  }

  /** `genreStats` after the outer `forEach` over the rated entries. */
  function GenreStatsOf(rated: seq<Entry>): (r: Dict<string, GenreStat>)
  {
    if rated == [] then Empty()
    else
      var e := rated[|rated| - 1];
      AddGenres(GenreStatsOf(rated[..|rated| - 1]), e.score, e.media.genres)
  }

  /** The inner `forEach` over one entry's genres. */
  method AddEntryGenres(stats0: Dict<string, GenreStat>, score: real, genres: seq<string>)
    returns (stats: Dict<string, GenreStat>)
    ensures stats == AddGenres(stats0, score, genres)
  {
    stats := stats0;
    var j := 0;
    while j < |genres|
      invariant 0 <= j <= |genres|
      invariant stats == AddGenres(stats0, score, genres[..j])
    {
      stats := AddGenre(stats, score, genres[j]);
      assert genres[..j + 1][..j] == genres[..j];
      j := j + 1;
    }
    assert genres[..j] == genres;
  }

  /** The outer `forEach` over the rated entries that fills `genreStats`. */
  method AggregateGenres(rated: seq<Entry>) returns (stats: Dict<string, GenreStat>)
    ensures stats == GenreStatsOf(rated)
  {
    stats := Empty();
    var i := 0;
    while i < |rated|
      invariant 0 <= i <= |rated|
      invariant stats == GenreStatsOf(rated[..i])
    {
      stats := AddEntryGenres(stats, rated[i].score, rated[i].media.genres);
      assert rated[..i + 1][..i] == rated[..i];
      i := i + 1;
    }
    assert rated[..i] == rated;
  }

  lemma {:induction false} AddGenresValid(stats: Dict<string, GenreStat>, score: real, genres: seq<string>)
    requires stats.Valid()
    ensures AddGenres(stats, score, genres).Valid()
  {
    if genres != [] {
      var prev := AddGenres(stats, score, genres[..|genres| - 1]);
      AddGenresValid(stats, score, genres[..|genres| - 1]);
      var k := Lower(Some(genres[|genres| - 1]));
      var cur := prev.Get(k, GenreStat(0.0, 0));
      SetValid(prev, k, GenreStat(cur.sum + score, cur.count + 1));
    }
  }

  /** `genreStats` lists each genre key once, in first-seen order. */
  lemma {:induction false} GenreStatsValid(rated: seq<Entry>)
    ensures GenreStatsOf(rated).Valid()
  {
    if rated != [] {
      var e := rated[|rated| - 1];
      GenreStatsValid(rated[..|rated| - 1]);
      AddGenresValid(GenreStatsOf(rated[..|rated| - 1]), e.score, e.media.genres);
    }
  }

  /** How often genre key `k` occurs among `genres` once they are lowered. */
  function KeyCount(genres: seq<string>, k: string): nat {
    if genres == [] then 0
    else KeyCount(genres[..|genres| - 1], k) + if Lower(Some(genres[|genres| - 1])) == k then 1 else 0
  }

  /** `score` added once for every occurrence of genre key `k` among `genres`. */
  function KeyScore(genres: seq<string>, score: real, k: string): real {
    if genres == [] then 0.0
    else KeyScore(genres[..|genres| - 1], score, k) + if Lower(Some(genres[|genres| - 1])) == k then score else 0.0
  }

  /** How often genre key `k` occurs over all rated entries. */
  function GenreOccurrences(rated: seq<Entry>, k: string): nat {
    if rated == [] then 0
    else GenreOccurrences(rated[..|rated| - 1], k) + KeyCount(rated[|rated| - 1].media.genres, k)
  }

  /** The scores of the entries carrying genre key `k`, one per occurrence, summed. */
  function GenreScoreMass(rated: seq<Entry>, k: string): real {
    if rated == [] then 0.0
    else
      var e := rated[|rated| - 1];
      GenreScoreMass(rated[..|rated| - 1], k) + KeyScore(e.media.genres, e.score, k)
  }

  lemma {:induction false} AddGenresCounts(stats: Dict<string, GenreStat>, score: real, genres: seq<string>, k: string)
    ensures var r := AddGenres(stats, score, genres);
      var base := stats.Get(k, GenreStat(0.0, 0));
      && (k in r.table <==> k in stats.table || KeyCount(genres, k) > 0)
      && r.Get(k, GenreStat(0.0, 0)) == GenreStat(base.sum + KeyScore(genres, score, k), base.count + KeyCount(genres, k))
  {
    if genres != [] {
      var init, g := genres[..|genres| - 1], genres[|genres| - 1];
      AddGenresCounts(stats, score, init, k);
      AddGenreAt(AddGenres(stats, score, init), score, g, k);
    }
  }

  lemma AddGenreAt(stats: Dict<string, GenreStat>, score: real, g: string, k: string)
    ensures var r := AddGenre(stats, score, g);
      var base := stats.Get(k, GenreStat(0.0, 0));
      && (k in r.table <==> k in stats.table || Lower(Some(g)) == k)
      && r.Get(k, GenreStat(0.0, 0)) == if Lower(Some(g)) == k then GenreStat(base.sum + score, base.count + 1) else base
  {
  }

  lemma {:induction false} GenreStatsCounts(rated: seq<Entry>, k: string)
    ensures var stats := GenreStatsOf(rated);
      && (k in stats.table <==> GenreOccurrences(rated, k) > 0)
      && stats.Get(k, GenreStat(0.0, 0)) == GenreStat(GenreScoreMass(rated, k), GenreOccurrences(rated, k))
  {
    if rated != [] {
      var e := rated[|rated| - 1];
      GenreStatsCounts(rated[..|rated| - 1], k);
      AddGenresCounts(GenreStatsOf(rated[..|rated| - 1]), e.score, e.media.genres, k);
    }
  }

  /** `genreStats` holds exactly the genres that occur on some rated entry;
      for each, `count` is its number of occurrences and `sum` the total of
      the scores of the entries it occurs on (once per occurrence). */
  lemma GenreStatsContents(rated: seq<Entry>, k: string)
    ensures var stats := GenreStatsOf(rated);
      && (k in stats.table <==> GenreOccurrences(rated, k) > 0)
      && (k in stats.table ==>
            stats.table[k] == GenreStat(GenreScoreMass(rated, k), GenreOccurrences(rated, k)))
  {
    GenreStatsCounts(rated, k);
  }

  // ---------------------------------------------------------------- genre scores

  /** `mean` for one genre: its average score, or the user mean if it never occurred. */
  function GenreMean(st: GenreStat, userMean: real): real {
    if st.count != 0 then st.sum / st.count as real else userMean
  }

  /** `genreScores[g]`: the genre's mean, centred on the user's mean, scaled
      to about -1..1 and shrunk by its number of occurrences. */
  function GenreScore(st: GenreStat, userMean: real, k: real): (r: real)
    requires k > 0.0
    ensures st.count == 0 ==> r == 0.0
    ensures st.count > 0 ==> (r > 0.0 <==> GenreMean(st, userMean) > userMean)
    ensures st.count > 0 ==> (r < 0.0 <==> GenreMean(st, userMean) < userMean)
    ensures Abs(r) <= Abs((GenreMean(st, userMean) - userMean) / 100.0)
  {
    Shrink((GenreMean(st, userMean) - userMean) / 100.0, st.count as real, k)
  }

  function GenreScores(stats: Dict<string, GenreStat>, userMean: real, k: real): (r: Dict<string, real>)
    requires stats.Valid() && k > 0.0
    ensures r.Valid() && r.order == stats.order
    ensures forall g :: g in r.table <==> g in stats.table
    ensures forall g :: g in r.table ==> r.table[g] == GenreScore(stats.table[g], userMean, k)
  {
    Dict(stats.order, map g | g in stats.table :: GenreScore(stats.table[g], userMean, k))
  }

  // ---------------------------------------------------------------- liked / disliked split

  /** `likedGenreScores`: the genres with a positive score, with that score. */
  function Liked(scores: Dict<string, real>): (r: Dict<string, real>)
    requires scores.Valid()
    ensures r.Valid()
    ensures forall g :: g in r.table <==> g in scores.table && scores.table[g] > 0.0
    ensures forall g :: g in r.table ==> r.table[g] == scores.table[g]
  {
    var keep := (g: string) => g in scores.table && scores.table[g] > 0.0;
    Dict(Filter(scores.order, keep), map g | g in scores.table && scores.table[g] > 0.0 :: scores.table[g])
  }

  /** `dislikedGenreScores`: the genres with a negative score, with its magnitude. */
  function Disliked(scores: Dict<string, real>): (r: Dict<string, real>)
    requires scores.Valid()
    ensures r.Valid()
    ensures forall g :: g in r.table <==> g in scores.table && scores.table[g] < 0.0
    ensures forall g :: g in r.table ==> r.table[g] == -scores.table[g]
  {
    var keep := (g: string) => g in scores.table && scores.table[g] < 0.0;
    Dict(Filter(scores.order, keep), map g | g in scores.table && scores.table[g] < 0.0 :: Abs(scores.table[g]))
  }

  /** Every scored genre with a non-zero score is on exactly one side; a
      genre scoring exactly 0 is on neither. */
  lemma SplitPartition(scores: Dict<string, real>, g: string)
    requires scores.Valid() && g in scores.table
    ensures g in Liked(scores).table || g in Disliked(scores).table <==> scores.table[g] != 0.0
    ensures !(g in Liked(scores).table && g in Disliked(scores).table)
  {
  }

  // ---------------------------------------------------------------- normalize

  /** `Math.max(0, v)` summed over `keys`: the reduce inside `normalize`. */
  function PositiveMass(keys: seq<string>, t: map<string, real>): (s: real)
    requires forall i :: 0 <= i < |keys| ==> keys[i] in t
    ensures s >= 0.0
    ensures forall i :: 0 <= i < |keys| ==> Max(0.0, t[keys[i]]) <= s
  {
    if keys == [] then 0.0 else Max(0.0, t[keys[0]]) + PositiveMass(keys[1..], t)
  }

  /** The plain sum of the values at `keys`. */
  function Total(keys: seq<string>, t: map<string, real>): real
    requires forall i :: 0 <= i < |keys| ==> keys[i] in t
  {
    if keys == [] then 0.0 else t[keys[0]] + Total(keys[1..], t)
  }

  /** The divisor `normalize` uses: the positive mass, or 1 when that is 0. */
  function NormalizeDivisor(m: Dict<string, real>): (d: real)
    requires m.Valid()
    ensures d > 0.0
  {
    var s := PositiveMass(m.order, m.table);
    if s == 0.0 then 1.0 else s
  }

  /** The `normalize` closure: each value's positive part over the positive mass. */
  function Normalize(m: Dict<string, real>): (r: Dict<string, real>)
    requires m.Valid()
    ensures r.Valid() && r.order == m.order
    ensures forall k :: k in r.table <==> k in m.table
    ensures forall k :: k in r.table ==> r.table[k] == Max(0.0, m.table[k]) / NormalizeDivisor(m)
    ensures forall k :: k in r.table ==> 0.0 <= r.table[k] <= 1.0
    ensures forall k :: k in r.table ==> (r.table[k] > 0.0 <==> m.table[k] > 0.0)
  {
    var d := NormalizeDivisor(m);
    var r := Dict(m.order, map k | k in m.table :: Max(0.0, m.table[k]) / d);
    forall k | k in r.table ensures 0.0 <= r.table[k] <= 1.0 && (r.table[k] > 0.0 <==> m.table[k] > 0.0) {
      var i :| 0 <= i < |m.order| && m.order[i] == k;
      assert Max(0.0, m.table[k]) <= PositiveMass(m.order, m.table);
      PositiveShare(m.table[k], d);
    }
    r
  }

  lemma DivAdd(a: real, b: real, d: real)
    requires d > 0.0
    ensures (a + b) / d == a / d + b / d
  {
  }

  lemma DivSelf(x: real)
    requires x > 0.0
    ensures x / x == 1.0
  {
  }

  /** A value's positive part as a share of a positive total at least as large. */
  lemma PositiveShare(v: real, d: real)
    requires d > 0.0 && Max(0.0, v) <= d
    ensures 0.0 <= Max(0.0, v) / d <= 1.0
    ensures Max(0.0, v) / d > 0.0 <==> v > 0.0
  {
    FractionAtMostOne(Max(0.0, v), d);
    if v > 0.0 {
      assert Max(0.0, v) / d * d == v;
    }
  }

  lemma FractionAtMostOne(x: real, d: real)
    requires 0.0 <= x <= d && d > 0.0
    ensures 0.0 <= x / d <= 1.0
  {
    assert x / d * d == x;
  }

  lemma {:induction false} TotalScaled(keys: seq<string>, t: map<string, real>, u: map<string, real>, d: real)
    requires d > 0.0
    requires forall i :: 0 <= i < |keys| ==> keys[i] in t && keys[i] in u
    requires forall i :: 0 <= i < |keys| ==> u[keys[i]] == Max(0.0, t[keys[i]]) / d
    ensures Total(keys, u) == PositiveMass(keys, t) / d
  {
    if keys != [] {
      TotalScaled(keys[1..], t, u, d);
      DivAdd(Max(0.0, t[keys[0]]), PositiveMass(keys[1..], t), d);
    }
  }

  /** A map with some positive value normalizes to weights that sum to 1. */
  lemma NormalizeSumsToOne(m: Dict<string, real>)
    requires m.Valid() && PositiveMass(m.order, m.table) > 0.0
    ensures Total(Normalize(m).order, Normalize(m).table) == 1.0
  {
    var r := Normalize(m);
    var d := NormalizeDivisor(m);
    forall i | 0 <= i < |m.order|
      ensures m.order[i] in m.table && m.order[i] in r.table
      ensures r.table[m.order[i]] == Max(0.0, m.table[m.order[i]]) / d
    {
    }
    TotalScaled(m.order, m.table, r.table, d);
    var s := PositiveMass(m.order, m.table);
    assert d == s;
    DivSelf(s);
    assert Total(r.order, r.table) == 1.0;
  }

  /** `posGenreWeights` / `negGenreWeights`: the normalized map, or `{}` when there is nothing to normalize. */
  function Weights(m: Dict<string, real>): (w: Dict<string, real>)
    requires m.Valid()
    ensures w.Valid()
  {
    if |m.order| > 0 then Normalize(m) else Empty()
  }

  /** A liked or disliked map (all values positive) becomes a weight map with
      the same keys, every weight in (0, 1], summing to exactly 1; an empty
      map stays empty. */
  lemma WeightsAreDistribution(m: Dict<string, real>)
    requires m.Valid()
    requires forall k :: k in m.table ==> m.table[k] > 0.0
    ensures var w := Weights(m);
      && (forall k :: k in w.table <==> k in m.table)
      && (forall k :: k in w.table ==> 0.0 < w.table[k] <= 1.0)
      && (m.order != [] ==> Total(w.order, w.table) == 1.0)
      && (m.order == [] ==> w.order == [] && w.table == map[])
  {
    if m.order != [] {
      assert m.order[0] in m.table;
      assert Max(0.0, m.table[m.order[0]]) <= PositiveMass(m.order, m.table);
      NormalizeSumsToOne(m);
    } else {
      assert m.table.Keys == {};
    }
  }

  // ---------------------------------------------------------------- tag aggregation

  /** `tagAgg[k]`: relevance-weighted score sum, relevance mass and occurrence count. */
  datatype TagAgg = TagAgg(weightedSum: real, tagRelevance: real, occ: nat)

  /** One tag occurrence, as the inner `forEach` handles it: a tag without a
      name is skipped; otherwise it adds `score * rel`, `rel` and one occurrence. */
  function AddTag(agg: Dict<string, TagAgg>, score: real, t: Tag): (r: Dict<string, TagAgg>)
  {
    if t.name == "" then agg
    else
      var k := Lower(Some(t.name));
      var rel := Relevance(t.rank);
      var cur := agg.Get(k, TagAgg(0.0, 0.0, 0));
      agg.Set(k, TagAgg(cur.weightedSum + Weigh(score, rel), cur.tagRelevance + rel, cur.occ + 1))
  }

  function AddTags(agg: Dict<string, TagAgg>, score: real, tags: seq<Tag>): (r: Dict<string, TagAgg>)
  {
    if tags == [] then agg
    else AddTag(AddTags(agg, score, tags[..|tags| - 1]), score, tags[|tags| - 1])
  }

  /** `tagAgg` after the outer `forEach` over the rated entries. */
  function TagAggOf(rated: seq<Entry>): (r: Dict<string, TagAgg>)
  {
    if rated == [] then Empty()
    else
      var e := rated[|rated| - 1];
      AddTags(TagAggOf(rated[..|rated| - 1]), e.score, e.media.tags)
  }

  /** The inner `forEach` over one entry's tags. */
  method AddEntryTags(agg0: Dict<string, TagAgg>, score: real, tags: seq<Tag>)
    returns (agg: Dict<string, TagAgg>)
    ensures agg == AddTags(agg0, score, tags)
  {
    agg := agg0;
    var j := 0;
    while j < |tags|
      invariant 0 <= j <= |tags|
      invariant agg == AddTags(agg0, score, tags[..j])
    {
      agg := AddTag(agg, score, tags[j]);
      assert tags[..j + 1][..j] == tags[..j];
      j := j + 1;
    }
    assert tags[..j] == tags;
  }

  /** The outer `forEach` over the rated entries that fills `tagAgg`. */
  method AggregateTags(rated: seq<Entry>) returns (agg: Dict<string, TagAgg>)
    ensures agg == TagAggOf(rated)
  {
    agg := Empty();
    var i := 0;
    while i < |rated|
      invariant 0 <= i <= |rated|
      invariant agg == TagAggOf(rated[..i])
    {
      agg := AddEntryTags(agg, rated[i].score, rated[i].media.tags);
      assert rated[..i + 1][..i] == rated[..i];
      i := i + 1;
    }
    assert rated[..i] == rated;
  }

  lemma {:induction false} AddTagsValid(agg: Dict<string, TagAgg>, score: real, tags: seq<Tag>)
    requires agg.Valid()
    ensures AddTags(agg, score, tags).Valid()
  {
    if tags != [] {
      var prev := AddTags(agg, score, tags[..|tags| - 1]);
      AddTagsValid(agg, score, tags[..|tags| - 1]);
      var t := tags[|tags| - 1];
      if t.name != "" {
        var k := Lower(Some(t.name));
        var rel := Relevance(t.rank);
        var cur := prev.Get(k, TagAgg(0.0, 0.0, 0));
        SetValid(prev, k, TagAgg(cur.weightedSum + Weigh(score, rel), cur.tagRelevance + rel, cur.occ + 1));
      }
    }
  }

  /** `tagAgg` lists each tag key once, in first-seen order. */
  lemma {:induction false} TagAggValid(rated: seq<Entry>)
    ensures TagAggOf(rated).Valid()
  {
    if rated != [] {
      var e := rated[|rated| - 1];
      TagAggValid(rated[..|rated| - 1]);
      AddTagsValid(TagAggOf(rated[..|rated| - 1]), e.score, e.media.tags);
    }
  }

  /** Does this tag occurrence count for key `k`: it has a name, and the name lowers to `k`. */
  predicate TagHits(t: Tag, k: string) {
    t.name != "" && Lower(Some(t.name)) == k
  }

  /** Relevance mass of the occurrences of tag key `k` in `tags`. */
  function TagMass(tags: seq<Tag>, k: string): real {
    if tags == [] then 0.0
    else
      var t := tags[|tags| - 1];
      TagMass(tags[..|tags| - 1], k) + if TagHits(t, k) then Relevance(t.rank) else 0.0
  }

  /** `score * relevance` summed over the occurrences of tag key `k` in `tags`. */
  function TagScoreMass(tags: seq<Tag>, score: real, k: string): real {
    if tags == [] then 0.0
    else
      var t := tags[|tags| - 1];
      TagScoreMass(tags[..|tags| - 1], score, k) + if TagHits(t, k) then Weigh(score, Relevance(t.rank)) else 0.0
  }

  /** Number of occurrences of tag key `k` in `tags`. */
  function TagCount(tags: seq<Tag>, k: string): nat {
    if tags == [] then 0
    else TagCount(tags[..|tags| - 1], k) + if TagHits(tags[|tags| - 1], k) then 1 else 0
  }

  lemma {:induction false} AddTagsCounts(agg: Dict<string, TagAgg>, score: real, tags: seq<Tag>, k: string)
    ensures var r := AddTags(agg, score, tags);
      var base := agg.Get(k, TagAgg(0.0, 0.0, 0));
      && (k in r.table <==> k in agg.table || TagCount(tags, k) > 0)
      && r.Get(k, TagAgg(0.0, 0.0, 0))
         == TagAgg(base.weightedSum + TagScoreMass(tags, score, k), base.tagRelevance + TagMass(tags, k), base.occ + TagCount(tags, k))
  {
    if tags != [] {
      var init, t := tags[..|tags| - 1], tags[|tags| - 1];
      AddTagsCounts(agg, score, init, k);
      AddTagAt(AddTags(agg, score, init), score, t, k);
    }
  }

  lemma AddTagAt(agg: Dict<string, TagAgg>, score: real, t: Tag, k: string)
    ensures var r := AddTag(agg, score, t);
      var base := agg.Get(k, TagAgg(0.0, 0.0, 0));
      var rel := Relevance(t.rank);
      && (k in r.table <==> k in agg.table || TagHits(t, k))
      && r.Get(k, TagAgg(0.0, 0.0, 0))
         == if TagHits(t, k) then TagAgg(base.weightedSum + Weigh(score, rel), base.tagRelevance + rel, base.occ + 1) else base
  {
    var z := TagAgg(0.0, 0.0, 0);
    if t.name != "" {
      var key := Lower(Some(t.name));
      var rel := Relevance(t.rank);
      var cur := agg.Get(key, z);
      var v := TagAgg(cur.weightedSum + Weigh(score, rel), cur.tagRelevance + rel, cur.occ + 1);
      var r := agg.Set(key, v);
      assert AddTag(agg, score, t) == r;
      if key == k {
        assert r.Get(k, z) == v;
      } else {
        assert r.Get(k, z) == agg.Get(k, z);
      }
    }
  }

  /** Sum of `TagMass` over the entries. */
  function TagMassOf(rated: seq<Entry>, k: string): real {
    if rated == [] then 0.0 else TagMassOf(rated[..|rated| - 1], k) + TagMass(rated[|rated| - 1].media.tags, k)
  }

  /** Sum of `TagScoreMass` over the entries. */
  function TagWeightedScore(rated: seq<Entry>, k: string): real {
    if rated == [] then 0.0
    else
      var e := rated[|rated| - 1];
      TagWeightedScore(rated[..|rated| - 1], k) + TagScoreMass(e.media.tags, e.score, k)
  }

  /** Sum of `TagCount` over the entries. */
  function TagOccurrences(rated: seq<Entry>, k: string): nat {
    if rated == [] then 0 else TagOccurrences(rated[..|rated| - 1], k) + TagCount(rated[|rated| - 1].media.tags, k)
  }

  lemma {:induction false} TagAggCounts(rated: seq<Entry>, k: string)
    ensures var agg := TagAggOf(rated);
      && (k in agg.table <==> TagOccurrences(rated, k) > 0)
      && agg.Get(k, TagAgg(0.0, 0.0, 0)) == TagAgg(TagWeightedScore(rated, k), TagMassOf(rated, k), TagOccurrences(rated, k))
  {
    if rated != [] {
      var e := rated[|rated| - 1];
      TagAggCounts(rated[..|rated| - 1], k);
      AddTagsCounts(TagAggOf(rated[..|rated| - 1]), e.score, e.media.tags, k);
    }
  }

  /** `tagAgg` holds exactly the tag keys that occur, by a non-empty name, on
      some rated entry; for each, the relevance mass, the relevance-weighted
      score sum and the occurrence count over all rated entries. */
  lemma TagAggContents(rated: seq<Entry>, k: string)
    ensures var agg := TagAggOf(rated);
      && (k in agg.table <==> TagOccurrences(rated, k) > 0)
      && (k in agg.table ==>
            agg.table[k] == TagAgg(TagWeightedScore(rated, k), TagMassOf(rated, k), TagOccurrences(rated, k)))
  {
    TagAggCounts(rated, k);
  }

  // ---------------------------------------------------------------- tag scores

  /** `userTagScores[k]`: 0 for a tag without relevance mass; otherwise the
      relevance-weighted mean, centred on the user's mean, scaled to about
      -1..1 and shrunk by the relevance mass. */
  function TagScore(a: TagAgg, userMean: real, k: real): (r: real)
    requires k > 0.0
    ensures a.tagRelevance <= 0.0 ==> r == 0.0
    ensures a.tagRelevance > 0.0 ==>
      var diff := (a.weightedSum / a.tagRelevance - userMean) / 100.0;
      && (r > 0.0 <==> diff > 0.0)
      && (r < 0.0 <==> diff < 0.0)
      && Abs(r) <= Abs(diff)
  {
    if a.tagRelevance <= 0.0 then 0.0
    else Shrink((a.weightedSum / a.tagRelevance - userMean) / 100.0, a.tagRelevance, k)
  }

  function TagScores(agg: Dict<string, TagAgg>, userMean: real, k: real): (r: Dict<string, real>)
    requires agg.Valid() && k > 0.0
    ensures r.Valid() && r.order == agg.order
    ensures forall t :: t in r.table <==> t in agg.table
    ensures forall t :: t in r.table ==> r.table[t] == TagScore(agg.table[t], userMean, k)
  {
    Dict(agg.order, map t | t in agg.table :: TagScore(agg.table[t], userMean, k))
  }

  // ---------------------------------------------------------------- the profile

  /** Everything the later stages read about the user. */
  datatype UserProfile = UserProfile(
    watched: set<int>,
    userMean: real,
    genreScores: Dict<string, real>,
    liked: Dict<string, real>,
    posGenreWeights: Dict<string, real>,
    negGenreWeights: Dict<string, real>,
    tagScores: Dict<string, real>)

  function ProfileOf(entries: seq<Entry>, cfg: Config): (p: UserProfile)
    requires ValidConfig(cfg)
  {
    var rated := RatedEntries(entries);
    var mean := UserMean(rated);
    GenreStatsValid(rated);
    TagAggValid(rated);
    var genreScores := GenreScores(GenreStatsOf(rated), mean, cfg.shrinkageK);
    UserProfile(
      WatchedIds(entries),
      mean,
      genreScores,
      Liked(genreScores),
      Weights(Liked(genreScores)),
      Weights(Disliked(genreScores)),
      TagScores(TagAggOf(rated), mean, cfg.tagShrinkageK))
  }

  /** A weight map: keys listed once, every weight in (0, 1], and the weights
      summing to exactly 1 unless the map is empty. */
  ghost predicate Distribution(w: Dict<string, real>) {
    && w.Valid()
    && (forall g :: g in w.table ==> 0.0 < w.table[g] <= 1.0)
    && (w.order != [] ==> Total(w.order, w.table) == 1.0)
  }

  /** Splitting a genre score map and normalizing each side gives two
      distributions: one over the genres scoring above zero, one over those
      scoring below it. */
  lemma SplitWeights(scores: Dict<string, real>)
    requires scores.Valid()
    ensures var pos, neg := Weights(Liked(scores)), Weights(Disliked(scores));
      && Distribution(pos) && Distribution(neg)
      && (forall g :: g in pos.table <==> g in scores.table && scores.table[g] > 0.0)
      && (forall g :: g in neg.table <==> g in scores.table && scores.table[g] < 0.0)
  {
    var liked, disliked := Liked(scores), Disliked(scores);
    WeightsAreDistribution(liked);
    WeightsAreDistribution(disliked);
  }

  /** What the profile promises the later stages: the genre and tag score
      maps are well formed, and the two weight maps are distributions over
      the liked and the disliked genres. */
  lemma ProfileWellFormed(entries: seq<Entry>, cfg: Config)
    requires ValidConfig(cfg)
    ensures var p := ProfileOf(entries, cfg);
      && p.genreScores.Valid() && p.liked.Valid() && p.tagScores.Valid()
      && Distribution(p.posGenreWeights) && Distribution(p.negGenreWeights)
      && (forall g :: g in p.liked.table <==> g in p.genreScores.table && p.genreScores.table[g] > 0.0)
      && (forall g :: g in p.posGenreWeights.table <==> g in p.genreScores.table && p.genreScores.table[g] > 0.0)
      && (forall g :: g in p.negGenreWeights.table <==> g in p.genreScores.table && p.genreScores.table[g] < 0.0)
  {
    var p := ProfileOf(entries, cfg);
    SplitWeights(p.genreScores);
  }

  /** The profile stage as the source runs it: the two aggregation loops, the rest computed from them. */
  method BuildProfile(entries: seq<Entry>, cfg: Config) returns (p: UserProfile)
    requires ValidConfig(cfg)
    ensures p == ProfileOf(entries, cfg)
  {
    var rated := RatedEntries(entries);
    var mean := UserMean(rated);
    var stats := AggregateGenres(rated);
    GenreStatsValid(rated);
    var genreScores := GenreScores(stats, mean, cfg.shrinkageK);
    var liked := Liked(genreScores);
    var disliked := Disliked(genreScores);
    var agg := AggregateTags(rated);
    TagAggValid(rated);
    p := UserProfile(
      WatchedIds(entries), mean, genreScores, liked,
      Weights(liked), Weights(disliked), TagScores(agg, mean, cfg.tagShrinkageK));
  }

}
