/** `recommend` (js/recommender.js) end to end: read the user's lists, build
    the profile, fetch candidates for the chosen genres and tags, merge,
    score, filter, rank and dedupe. The two network reads become inputs:
    the user's lists arrive as a value, and each candidate query is answered
    by `retrieve`, which returns `None` when the request fails. */
module Recommender {
  import opened Wrappers
  import opened Seqs
  import opened Anime
  import opened Profile
  import opened Selection
  import opened Scoring
  import opened Ranking
  import Utils
  import opened Dicts

  /** Why `recommend` throws. */
  datatype Error =
    | UserNotFound   // no lists came back for the user
    | NoEntries      // the lists hold no entries
    | FetchFailed    // a candidate query failed, so `Promise.all` rejects

  datatype QueryKind = ByGenre | ByTag

  /** The argument of one `fetchCandidates` call. */
  datatype Query = Query(kind: QueryKind, value: string, pages: int)

  /** One query of the given kind per value, in order. */
  function Queries(kind: QueryKind, values: seq<string>, pages: int): (qs: seq<Query>)
    ensures |qs| == |values|
    ensures forall i :: 0 <= i < |qs| ==> qs[i] == Query(kind, values[i], pages)
    ensures forall q :: q in qs ==> q.kind == kind && q.pages == pages && q.value in values
    ensures Distinct(values) ==> Distinct(qs)
  {
    seq(|values|, i requires 0 <= i < |values| => Query(kind, values[i], pages))
  }

  /** Genre queries followed by tag queries: no query twice, and every genre
      query ahead of every tag query. */
  lemma PlanShape(gq: seq<Query>, tq: seq<Query>)
    requires Distinct(gq) && Distinct(tq)
    requires forall q :: q in gq ==> q.kind == ByGenre
    requires forall q :: q in tq ==> q.kind == ByTag
    ensures Distinct(gq + tq)
    ensures forall i, j :: 0 <= i < j < |gq + tq| && (gq + tq)[j].kind == ByGenre ==> (gq + tq)[i].kind == ByGenre
    ensures forall i :: 0 <= i < |gq + tq| ==> (gq + tq)[i] in gq || (gq + tq)[i] in tq
  {
    var qs := gq + tq;
    assert forall i :: 0 <= i < |gq| ==> qs[i] == gq[i] && qs[i].kind == ByGenre;
    assert forall i :: |gq| <= i < |qs| ==> qs[i] == tq[i - |gq|] && qs[i].kind == ByTag;
  }

  /** The profile's genre and tag maps as the profile stage leaves them:
      key lists without repeats, and every liked genre a scored genre. */
  ghost predicate ReadyToPlan(p: UserProfile) {
    && p.liked.Valid() && p.genreScores.Valid() && p.tagScores.Valid()
    && forall g :: g in p.liked.table ==> g in p.genreScores.table
  }

  /** The candidate queries: one per genre to fetch, then one per tag to
      fetch. Each asks about a genre or tag the profile scored (a liked
      genre whenever there is one), none is asked twice, and there are at
      most as many as the two fetch counts allow. */
  function PlanOf(p: UserProfile, cfg: Config): (qs: seq<Query>)
    requires ReadyToPlan(p)
    ensures |qs| <= cfg.genresToFetchCount + cfg.tagsToFetchCount
    ensures Distinct(qs)
    ensures forall i, j :: 0 <= i < j < |qs| && qs[j].kind == ByGenre ==> qs[i].kind == ByGenre
    ensures forall i :: 0 <= i < |qs| && qs[i].kind == ByGenre ==>
      && qs[i].pages == cfg.pagesPerGenre
      && qs[i].value in p.genreScores.table
      && (p.liked.order != [] ==> qs[i].value in p.liked.table)
    ensures forall i :: 0 <= i < |qs| && qs[i].kind == ByTag ==>
      qs[i].pages == cfg.pagesPerTag && qs[i].value in p.tagScores.table
  {
    var genres := SelectGenres(p.liked, p.genreScores, cfg.genresToFetchCount);
    var tags := SelectTags(p.tagScores, cfg.tagsToFetchCount);
    var gq, tq := Queries(ByGenre, genres, cfg.pagesPerGenre), Queries(ByTag, tags, cfg.pagesPerTag);
    PlanShape(gq, tq);
    gq + tq
  }

  /** How many keys `slice(0, n)` keeps out of `available`. */
  function Fetched(n: nat, available: nat): (k: nat)
    ensures k <= n && k <= available
    ensures k == n || k == available
  {
    if n <= available then n else available
  }

  /** The plan is the genres to fetch followed by the tags to fetch, and each
      part is a best-first selection: exactly as many as the fetch count and
      the scored keys allow, in descending order of the ranking key (the
      liked score when some genre is liked, else the score's magnitude; the
      tag score's magnitude for tags), and no key left out ranks above one
      that was chosen. */
  lemma PlanRanked(p: UserProfile, cfg: Config)
    requires ReadyToPlan(p)
    ensures var qs := PlanOf(p, cfg);
      var g := Fetched(cfg.genresToFetchCount, if p.liked.order != [] then |p.liked.order| else |p.genreScores.order|);
      && |qs| == g + Fetched(cfg.tagsToFetchCount, |p.tagScores.order|)
      && (forall i :: 0 <= i < |qs| ==> (qs[i].kind == ByGenre <==> i < g))
      && (p.liked.order != [] ==>
            && (forall i :: 0 <= i < g ==> qs[i].value in p.liked.table)
            && (forall i, j :: 0 <= i < j < g ==> p.liked.table[qs[i].value] >= p.liked.table[qs[j].value])
            && (forall v, i :: v in p.liked.table && Query(ByGenre, v, cfg.pagesPerGenre) !in qs && 0 <= i < g ==>
                  p.liked.table[v] <= p.liked.table[qs[i].value]))
      && (p.liked.order == [] ==>
            && (forall i :: 0 <= i < g ==> qs[i].value in p.genreScores.table)
            && (forall i, j :: 0 <= i < j < g ==>
                  Utils.Abs(p.genreScores.table[qs[i].value]) >= Utils.Abs(p.genreScores.table[qs[j].value]))
            && (forall v, i :: v in p.genreScores.table && Query(ByGenre, v, cfg.pagesPerGenre) !in qs && 0 <= i < g ==>
                  Utils.Abs(p.genreScores.table[v]) <= Utils.Abs(p.genreScores.table[qs[i].value])))
      && (forall i :: g <= i < |qs| ==> qs[i].value in p.tagScores.table)
      && (forall i, j :: g <= i < j < |qs| ==>
            Utils.Abs(p.tagScores.table[qs[i].value]) >= Utils.Abs(p.tagScores.table[qs[j].value]))
      && (forall t, i :: t in p.tagScores.table && Query(ByTag, t, cfg.pagesPerTag) !in qs && g <= i < |qs| ==>
            Utils.Abs(p.tagScores.table[t]) <= Utils.Abs(p.tagScores.table[qs[i].value]))
  {
    var genres := SelectGenres(p.liked, p.genreScores, cfg.genresToFetchCount);
    var tags := SelectTags(p.tagScores, cfg.tagsToFetchCount);
    PlanSplit(p, cfg);
    SelectedCounts(p, cfg);
    GenresRanked(p.liked, p.genreScores, cfg.genresToFetchCount, cfg.pagesPerGenre, Queries(ByTag, tags, cfg.pagesPerTag));
    TagsRanked(Queries(ByGenre, genres, cfg.pagesPerGenre), p.tagScores, cfg.tagsToFetchCount, cfg.pagesPerTag);
  }

  /** The plan lists the selected genres, then the selected tags. */
  lemma PlanSplit(p: UserProfile, cfg: Config)
    requires ReadyToPlan(p)
    ensures PlanOf(p, cfg) == Queries(ByGenre, SelectGenres(p.liked, p.genreScores, cfg.genresToFetchCount), cfg.pagesPerGenre)
      + Queries(ByTag, SelectTags(p.tagScores, cfg.tagsToFetchCount), cfg.pagesPerTag)
  {
  }

  /** How many genres and tags the selection takes. */
  lemma SelectedCounts(p: UserProfile, cfg: Config)
    requires ReadyToPlan(p)
    ensures |SelectGenres(p.liked, p.genreScores, cfg.genresToFetchCount)|
      == Fetched(cfg.genresToFetchCount, if p.liked.order != [] then |p.liked.order| else |p.genreScores.order|)
    ensures |SelectTags(p.tagScores, cfg.tagsToFetchCount)| == Fetched(cfg.tagsToFetchCount, |p.tagScores.order|)
  {
    SelectGenresRanked(p.liked, p.genreScores, cfg.genresToFetchCount);
    SelectTagsRanked(p.tagScores, cfg.tagsToFetchCount);
  }

  /** Genre queries for the selected genres, followed by any queries `rest`,
      are ranked best first. */
  lemma GenresRanked(liked: Dict<string, real>, scores: Dict<string, real>, n: nat, pages: int, rest: seq<Query>)
    requires liked.Valid() && scores.Valid()
    ensures var g := |SelectGenres(liked, scores, n)|;
      var qs := Queries(ByGenre, SelectGenres(liked, scores, n), pages) + rest;
      && (liked.order != [] ==>
            && (forall i :: 0 <= i < g ==> qs[i].value in liked.table)
            && (forall i, j :: 0 <= i < j < g ==> liked.table[qs[i].value] >= liked.table[qs[j].value])
            && (forall v, i :: v in liked.table && Query(ByGenre, v, pages) !in qs && 0 <= i < g ==>
                  liked.table[v] <= liked.table[qs[i].value]))
      && (liked.order == [] ==>
            && (forall i :: 0 <= i < g ==> qs[i].value in scores.table)
            && (forall i, j :: 0 <= i < j < g ==> Utils.Abs(scores.table[qs[i].value]) >= Utils.Abs(scores.table[qs[j].value]))
            && (forall v, i :: v in scores.table && Query(ByGenre, v, pages) !in qs && 0 <= i < g ==>
                  Utils.Abs(scores.table[v]) <= Utils.Abs(scores.table[qs[i].value])))
  {
    if liked.order != [] {
      LikedGenresRanked(liked, scores, n, pages, rest);
    } else {
      ScoredGenresRanked(liked, scores, n, pages, rest);
    }
  }

  lemma LikedGenresRanked(liked: Dict<string, real>, scores: Dict<string, real>, n: nat, pages: int, rest: seq<Query>)
    requires liked.Valid() && scores.Valid() && liked.order != []
    ensures var g := |SelectGenres(liked, scores, n)|;
      var qs := Queries(ByGenre, SelectGenres(liked, scores, n), pages) + rest;
      && (forall i :: 0 <= i < g ==> qs[i].value in liked.table)
      && (forall i, j :: 0 <= i < j < g ==> liked.table[qs[i].value] >= liked.table[qs[j].value])
      && (forall v, i :: v in liked.table && Query(ByGenre, v, pages) !in qs && 0 <= i < g ==>
            liked.table[v] <= liked.table[qs[i].value])
  {
    var gq := Queries(ByGenre, SelectGenres(liked, scores, n), pages);
    assert (gq + rest)[0..|gq|] == gq;
    QueriesRanked(gq + rest, 0, liked, Identity, n, ByGenre, pages);
  }

  lemma ScoredGenresRanked(liked: Dict<string, real>, scores: Dict<string, real>, n: nat, pages: int, rest: seq<Query>)
    requires liked.Valid() && scores.Valid() && liked.order == []
    ensures var g := |SelectGenres(liked, scores, n)|;
      var qs := Queries(ByGenre, SelectGenres(liked, scores, n), pages) + rest;
      && (forall i :: 0 <= i < g ==> qs[i].value in scores.table)
      && (forall i, j :: 0 <= i < j < g ==> Utils.Abs(scores.table[qs[i].value]) >= Utils.Abs(scores.table[qs[j].value]))
      && (forall v, i :: v in scores.table && Query(ByGenre, v, pages) !in qs && 0 <= i < g ==>
            Utils.Abs(scores.table[v]) <= Utils.Abs(scores.table[qs[i].value]))
  {
    var gq := Queries(ByGenre, SelectGenres(liked, scores, n), pages);
    assert (gq + rest)[0..|gq|] == gq;
    QueriesRanked(gq + rest, 0, scores, Utils.Abs, n, ByGenre, pages);
  }

  /** Any queries `first`, followed by tag queries for the selected tags:
      the tag queries are ranked best first. */
  lemma TagsRanked(first: seq<Query>, tagScores: Dict<string, real>, n: nat, pages: int)
    requires tagScores.Valid()
    ensures var qs := first + Queries(ByTag, SelectTags(tagScores, n), pages);
      && (forall i :: |first| <= i < |qs| ==> qs[i].value in tagScores.table)
      && (forall i, j :: |first| <= i < j < |qs| ==>
            Utils.Abs(tagScores.table[qs[i].value]) >= Utils.Abs(tagScores.table[qs[j].value]))
      && (forall t, i :: t in tagScores.table && Query(ByTag, t, pages) !in qs && |first| <= i < |qs| ==>
            Utils.Abs(tagScores.table[t]) <= Utils.Abs(tagScores.table[qs[i].value]))
  {
    var tags := SelectTags(tagScores, n);
    var tq := Queries(ByTag, tags, pages);
    var qs := first + tq;
    assert qs[|first|..|first| + |tags|] == tq;
    QueriesRanked(qs, |first|, tagScores, Utils.Abs, n, ByTag, pages);
  }

  /** The `n` best keys of `d` by `rank`, sent as the queries `qs[lo..]`:
      their queries are best first, and a key without a query of its own
      ranks no higher than any that has one. */
  lemma QueriesRanked(qs: seq<Query>, lo: nat, d: Dict<string, real>, rank: real -> real, n: nat,
                      kind: QueryKind, pages: int)
    requires d.Valid()
    requires lo + |TopKeys(d, rank, n)| <= |qs|
    requires qs[lo..lo + |TopKeys(d, rank, n)|] == Queries(kind, TopKeys(d, rank, n), pages)
    ensures var hi := lo + |TopKeys(d, rank, n)|;
      && (forall i :: lo <= i < hi ==> qs[i].value in d.table)
      && (forall i, j :: lo <= i < j < hi ==> rank(d.table[qs[i].value]) >= rank(d.table[qs[j].value]))
      && (forall v, i :: v in d.table && Query(kind, v, pages) !in qs && lo <= i < hi ==>
            rank(d.table[v]) <= rank(d.table[qs[i].value]))
  {
    var values := TopKeys(d, rank, n);
    var m := d.table;
    TopKeysRanked(d, rank, n);
    QueriesAt(qs, lo, values, kind, pages);
    forall i | lo <= i < lo + |values| ensures qs[i].value in m {
      assert qs[i].value == values[i - lo];
    }
    forall i, j | lo <= i < j < lo + |values| ensures rank(m[qs[i].value]) >= rank(m[qs[j].value]) {
      assert qs[i].value == values[i - lo] && qs[j].value == values[j - lo];
    }
    forall v, i | v in m && Query(kind, v, pages) !in qs && lo <= i < lo + |values|
      ensures rank(m[v]) <= rank(m[qs[i].value])
    {
      assert qs[i].value == values[i - lo];
    }
  }

  /** Where the queries for `values` sit inside `qs`, and which values have none. */
  lemma QueriesAt(qs: seq<Query>, lo: nat, values: seq<string>, kind: QueryKind, pages: int)
    requires lo + |values| <= |qs| && qs[lo..lo + |values|] == Queries(kind, values, pages)
    ensures forall i :: lo <= i < lo + |values| ==> qs[i] == Query(kind, values[i - lo], pages)
    ensures forall v :: Query(kind, v, pages) !in qs ==> v !in values
  {
    forall i | lo <= i < lo + |values| ensures qs[i] == Query(kind, values[i - lo], pages) {
      assert qs[i] == qs[lo..lo + |values|][i - lo];
    }
    forall v | Query(kind, v, pages) !in qs ensures v !in values {
      forall k | 0 <= k < |values| ensures values[k] != v {
        assert qs[lo + k] in qs;
      }
    }
  }

  /** The queries `recommend` sends for the user with these list entries. */
  function PlanFor(entries: seq<Entry>, cfg: Config): seq<Query>
    requires ValidConfig(cfg)
  {
    ProfileWellFormed(entries, cfg);
    PlanOf(ProfileOf(entries, cfg), cfg)
  }

  /** `Promise.all` over the queries: every answer, in query order, or
      `None` as soon as one query fails. */
  function FetchAll(qs: seq<Query>, retrieve: Query -> Option<seq<Media>>): (r: Option<seq<seq<Media>>>)
    ensures r.None? <==> exists i :: 0 <= i < |qs| && retrieve(qs[i]).None?
    ensures r.Some? ==> |r.value| == |qs| && forall i :: 0 <= i < |qs| ==> retrieve(qs[i]) == Some(r.value[i])
  {
    if qs == [] then Some([])
    else
      var init := FetchAll(qs[..|qs| - 1], retrieve);
      var last := retrieve(qs[|qs| - 1]);
      if init.None? || last.None? then None
      else Some(init.value + [last.value])
  }

  /** What a successful `recommend` returns for the candidates `cands` and
      the profile `p`: at most `Cap(maxRecommendations)` scored candidates,
      each scored against `p` and passing the filter, best first, never two
      from one franchise; the best candidate that passes the filter leads,
      and every other one that passes is missing only because it shares an
      id with a recommended item ranked at least as high, or because the
      list is full of items ranked at least as high. Exactly: the list is
      what the greedy dedupe leaves of the ranked, filtered scores. */
  ghost predicate Recommends(final: seq<Scored>, cands: seq<Media>, p: UserProfile, cfg: Config) {
    && |final| <= Cap(cfg.maxRecommendations)
    && (forall i :: 0 <= i < |final| ==>
          final[i].media in cands && final[i] == ScoreCandidate(final[i].media, p, cfg) && Keep(final[i], p.watched))
    && SortedDesc(final, Combined)
    && FootprintsDisjoint(final)
    && (forall c :: c in cands && Keep(ScoreCandidate(c, p, cfg), p.watched) ==>
          final != [] && final[0].combined >= ScoreCandidate(c, p, cfg).combined)
    && (forall c :: c in cands && Keep(ScoreCandidate(c, p, cfg), p.watched) && ScoreCandidate(c, p, cfg) !in final ==>
          || (exists k :: 0 <= k < |final| && final[k].combined >= ScoreCandidate(c, p, cfg).combined
                          && Footprint(c) * Footprint(final[k].media) != {})
          || (|final| == Cap(cfg.maxRecommendations)
              && forall k :: 0 <= k < |final| ==> final[k].combined >= ScoreCandidate(c, p, cfg).combined))
    && Deduped(RankByCombined(FilterCandidates(Scores(cands, p, cfg), p.watched)), final, cfg.maxRecommendations)
  }

  /** The candidates `cands`, each scored against `p`, in order. */
  ghost function Scores(cands: seq<Media>, p: UserProfile, cfg: Config): seq<Scored> {
    seq(|cands|, i requires 0 <= i < |cands| => ScoreCandidate(cands[i], p, cfg))
  }

  /** `recommend`, with the user's lists and the candidate queries as inputs.
      It fails exactly when the source throws, with the matching error, and
      otherwise returns what `Recommends` describes for the merged
      candidates and the user's profile. */
  method Recommend(lists: Option<seq<seq<Entry>>>, retrieve: Query -> Option<seq<Media>>, cfg: Config)
    returns (r: Result<seq<Scored>, Error>)
    requires ValidConfig(cfg)
    ensures r == Failure(UserNotFound) <==> lists.None?
    ensures r == Failure(NoEntries) <==> lists.Some? && Flatten(lists.value) == []
    ensures r == Failure(NoEntries) <==> lists.Some? && forall i :: 0 <= i < |lists.value| ==> lists.value[i] == []
    ensures r == Failure(FetchFailed) <==>
      && lists.Some? && Flatten(lists.value) != []
      && FetchAll(PlanFor(Flatten(lists.value), cfg), retrieve).None?
    ensures r.Success? ==>
      && lists.Some? && Flatten(lists.value) != []
      && FetchAll(PlanFor(Flatten(lists.value), cfg), retrieve).Some?
      && Recommends(r.value, Candidates(FetchAll(PlanFor(Flatten(lists.value), cfg), retrieve).value),
                    ProfileOf(Flatten(lists.value), cfg), cfg)
  {
    if lists.None? {
      return Failure(UserNotFound);
    }
    var entries := Flatten(lists.value);
    FlattenEmpty(lists.value);
    if |entries| == 0 {
      return Failure(NoEntries);
    }
    var p := BuildProfile(entries, cfg);
    var fetched := FetchAll(PlanFor(entries, cfg), retrieve);
    if fetched.None? {
      return Failure(FetchFailed);
    }
    var cands := MergeBatches(fetched.value);
    var final := RankCandidates(cands, p, cfg);
    r := Success(final);
  }

  /** The second half of `recommend`: score the merged candidates against
      the profile, drop the filtered ones, rank and dedupe. */
  method RankCandidates(cands: seq<Media>, p: UserProfile, cfg: Config) returns (final: seq<Scored>)
    ensures Recommends(final, cands, p, cfg)
  {
    var scored := ScoreAll(cands, p, cfg);
    final := RankAndDedupe(scored, p.watched, cfg.maxRecommendations);
    ScoredCandidates(cands, scored, final, p, cfg);
  }

  /** Moving the stage's promises from the scored list back to the candidates it was scored from. */
  lemma ScoredCandidates(cands: seq<Media>, scored: seq<Scored>, final: seq<Scored>, p: UserProfile, cfg: Config)
    requires |scored| == |cands| && forall i :: 0 <= i < |cands| ==> scored[i] == ScoreCandidate(cands[i], p, cfg)
    requires forall i :: 0 <= i < |final| ==> final[i] in scored && Keep(final[i], p.watched)
    requires |final| <= Cap(cfg.maxRecommendations) && SortedDesc(final, Combined) && FootprintsDisjoint(final)
    requires forall s :: s in scored && Keep(s, p.watched) ==> final != [] && final[0].combined >= s.combined
    requires forall s :: s in scored && Keep(s, p.watched) && s !in final ==>
      || (exists k :: 0 <= k < |final| && final[k].combined >= s.combined && Footprint(s.media) * Footprint(final[k].media) != {})
      || (|final| == Cap(cfg.maxRecommendations) && forall k :: 0 <= k < |final| ==> final[k].combined >= s.combined)
    requires Deduped(RankByCombined(FilterCandidates(scored, p.watched)), final, cfg.maxRecommendations)
    ensures Recommends(final, cands, p, cfg)
  {
    ScoresOf(cands, scored, p, cfg);
    ScoresDeduped(cands, scored, final, p, cfg);
    CandidatesKept(cands, scored, final, p, cfg);
    CandidatesLead(cands, scored, final, p, cfg);
    CandidatesOmitted(cands, scored, final, p, cfg);
  }

  /** The best passing score leads, moved from the scores to the candidates. */
  lemma CandidatesLead(cands: seq<Media>, scored: seq<Scored>, final: seq<Scored>, p: UserProfile, cfg: Config)
    requires forall c :: c in cands ==> ScoreCandidate(c, p, cfg) in scored
    requires forall s :: s in scored && Keep(s, p.watched) ==> final != [] && final[0].combined >= s.combined
    ensures forall c :: c in cands && Keep(ScoreCandidate(c, p, cfg), p.watched) ==>
      final != [] && final[0].combined >= ScoreCandidate(c, p, cfg).combined
  {
  }

  /** The dedupe of `scored` is the dedupe of the candidates' scores. */
  lemma ScoresDeduped(cands: seq<Media>, scored: seq<Scored>, final: seq<Scored>, p: UserProfile, cfg: Config)
    requires |scored| == |cands| && forall i :: 0 <= i < |cands| ==> scored[i] == ScoreCandidate(cands[i], p, cfg)
    requires Deduped(RankByCombined(FilterCandidates(scored, p.watched)), final, cfg.maxRecommendations)
    ensures Deduped(RankByCombined(FilterCandidates(Scores(cands, p, cfg), p.watched)), final, cfg.maxRecommendations)
  {
    assert scored == Scores(cands, p, cfg);
  }

  /** Each recommended score is a candidate's score. */
  lemma CandidatesKept(cands: seq<Media>, scored: seq<Scored>, final: seq<Scored>, p: UserProfile, cfg: Config)
    requires |scored| == |cands| && forall i :: 0 <= i < |cands| ==> scored[i] == ScoreCandidate(cands[i], p, cfg)
    requires forall i :: 0 <= i < |final| ==> final[i] in scored
    ensures forall i :: 0 <= i < |final| ==> final[i].media in cands && final[i] == ScoreCandidate(final[i].media, p, cfg)
  {
    forall i | 0 <= i < |final| ensures final[i].media in cands && final[i] == ScoreCandidate(final[i].media, p, cfg) {
      var j :| 0 <= j < |scored| && scored[j] == final[i];
    }
  }

  /** Every candidate's score is in `scored`, the candidates' scores. */
  lemma ScoresOf(cands: seq<Media>, scored: seq<Scored>, p: UserProfile, cfg: Config)
    requires |scored| == |cands| && forall i :: 0 <= i < |cands| ==> scored[i] == ScoreCandidate(cands[i], p, cfg)
    ensures forall c :: c in cands ==> ScoreCandidate(c, p, cfg) in scored
  {
    forall c | c in cands ensures ScoreCandidate(c, p, cfg) in scored {
      var i :| 0 <= i < |cands| && cands[i] == c;
      assert scored[i] == ScoreCandidate(c, p, cfg);
    }
  }

  /** Why a candidate is missing, moved from its score back to the candidate. */
  lemma CandidatesOmitted(cands: seq<Media>, scored: seq<Scored>, final: seq<Scored>, p: UserProfile, cfg: Config)
    requires forall c :: c in cands ==> ScoreCandidate(c, p, cfg) in scored
    requires forall s :: s in scored && Keep(s, p.watched) && s !in final ==>
      || (exists k :: 0 <= k < |final| && final[k].combined >= s.combined && Footprint(s.media) * Footprint(final[k].media) != {})
      || (|final| == Cap(cfg.maxRecommendations) && forall k :: 0 <= k < |final| ==> final[k].combined >= s.combined)
    ensures forall c :: c in cands && Keep(ScoreCandidate(c, p, cfg), p.watched) && ScoreCandidate(c, p, cfg) !in final ==>
      || (exists k :: 0 <= k < |final| && final[k].combined >= ScoreCandidate(c, p, cfg).combined
                      && Footprint(c) * Footprint(final[k].media) != {})
      || (|final| == Cap(cfg.maxRecommendations)
          && forall k :: 0 <= k < |final| ==> final[k].combined >= ScoreCandidate(c, p, cfg).combined)
  {
    forall c | c in cands && Keep(ScoreCandidate(c, p, cfg), p.watched) && ScoreCandidate(c, p, cfg) !in final
      ensures || (exists k :: 0 <= k < |final| && final[k].combined >= ScoreCandidate(c, p, cfg).combined
                                && Footprint(c) * Footprint(final[k].media) != {})
              || (|final| == Cap(cfg.maxRecommendations)
                  && forall k :: 0 <= k < |final| ==> final[k].combined >= ScoreCandidate(c, p, cfg).combined)
    {
      assert ScoreCandidate(c, p, cfg).media == c;
    }
  }
}
