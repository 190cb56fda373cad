# animatch recommender, modelled in Dafny

This project models `recommend` from animatch's js/recommender.js.
`recommend` turns a user's AniList watch list into a ranked list of anime recommendations.
The model also covers the helpers it uses from js/utils.js: `lower`, `clamp`, `shrink` and `isRelatedToWatched`.

The pipeline runs in these stages, one Dafny module each:

- **Profile** (`profile.dfy`, lines 9-73). It computes:
  - the watched ids;
  - the rated entries (the positively scored ones, or all entries when none is scored);
  - the user's mean score;
  - per-genre statistics, turned into shrunk, mean-centred genre scores;
  - the split of those scores into liked and disliked genre weight maps, each normalised to sum to 1;
  - relevance-weighted per-tag statistics, turned into tag scores.
- **Selection** (`selection.dfy`, lines 76-98). It chooses the genres to fetch: the liked genres by score, or, with none liked, all genres by magnitude. It chooses the tags to fetch by magnitude. It merges the fetched batches into one candidate list keyed by media id, where the last record fetched for an id wins and keeps its first position.
- **Scoring** (`scoring.dfy`, lines 110-139). Each candidate gets:
  - a genre score, clamped to [0, 1];
  - a tag alignment over the allow-listed tags, clamped to [0, 1];
  - a combined score. With liked genres, the tag term amplifies the genre score; without them, the combined score is the tag alignment.
- **Ranking** (`ranking.dfy`, lines 143-180). A filter drops:
  - watched items;
  - items related to watched ones;
  - items with a more popular or older prequel;
  - MUSIC and SPECIAL formats.

  Then a stable sort by combined score, and the franchise dedupe: a greedy scan that keeps an item only when neither its id nor any id it is related to has been claimed by a kept item, stopping once the list is full.
- **Recommender** (`recommender.dfy`). It holds the whole of `recommend`: the three errors it throws, the candidate queries it sends, and the composition of the stages.

The user's dictionaries (plain objects and a `Map`) are modelled as `Dicts.Dict`: a key list in first-insertion order plus a map. That is the order `Map.prototype.values` reports, and the order `Object.entries` reports for keys that are not array indices. Assigning to a present key replaces the value in place, as `Map.set` and a property write on an own property do.

The loops that update state step by step are methods proved equal to left-fold specification functions:

- the genre and tag aggregation;
- the candidate merge;
- the per-candidate tag accumulators;
- the scoring `map`;
- the dedupe.

The properties are proved about those functions. The two network reads are inputs:

- the user's lists arrive as an `Option` (`None` when the user is not found);
- each candidate query is answered by a function `retrieve`, which returns `None` when that request fails.

## Model

| member | source | states |
|---|---|---|
| Utils.TrimSpec | js/utils.js:1 | the trimmed string is a contiguous slice of the input with no whitespace at either end, and everything cut off before and after it is whitespace; an already trimmed string is unchanged |
| Utils.TrimCuts | js/utils.js:1 | gives the two cut positions of the trim: the kept slice lies between them, and only whitespace lies outside them |
| Utils.ToLowerAsciiSpec | js/utils.js:1 | lower-casing keeps the length and lowers each character on its own |
| Utils.Lower | js/utils.js:1 | an absent value lowers to the empty string |
| Utils.LowerNormal | js/utils.js:1 | a lowered key has no surrounding whitespace and no upper-case letter |
| Utils.LowerIdempotent | js/utils.js:1 | lowering a lowered key changes nothing, so keys compare consistently |
| Utils.Clamp | js/utils.js:2 | the result lies in [a, b] when a <= b; a value inside is returned as is, one below gives a, one above gives b |
| Utils.ShrinkFactor | js/utils.js:3 | the factor count/(count+K) lies in [0, 1) and is 0 exactly when count is 0 |
| Utils.Shrink | js/utils.js:3 | shrinking keeps the sign (zero without evidence), never grows the magnitude, and strictly reduces any non-zero input |
| Utils.ShrinkMonotone | js/utils.js:3 | more evidence means less shrinkage: the magnitude strictly grows with count |
| Utils.ShrinkGap | js/utils.js:3 | the magnitude lost is exactly \|raw\| * K/(count+K) |
| Utils.IsRelatedToWatched | js/utils.js:5-18 | true exactly when some edge of one of the seven listed relation types points to a watched id |
| Utils.OtherEdgesIgnored | js/utils.js:5-18 | adding an edge of any other relation type never changes the answer |
| Seqs.Filter | js/recommender.js:12 | `filter` keeps exactly the elements that pass the test, never lengthens, and keeps a repeat-free list repeat-free |
| Seqs.FilterMultiset | js/recommender.js:12 | `filter` keeps each passing element as often as it occurs, and no failing one |
| Seqs.FilterConcat | js/recommender.js:12 | `filter` keeps the order: filtering a concatenation concatenates the filtered parts |
| Seqs.FlattenEmpty | js/recommender.js:6-7 | the flattened lists are empty exactly when every list is empty |
| Anime.Relevance | js/recommender.js:57 | a tag's relevance is at most 1, not negative for a non-negative rank, exactly 1 from rank 100 up and rank/100 below it |
| Profile.WatchedIds | js/recommender.js:9 | the watched set holds exactly the non-missing media ids of the entries |
| Profile.RatedEntries | js/recommender.js:12-13 | when some entry is positively scored, the rated entries are exactly the positively scored entries, each as often as it occurs in the list; otherwise they are every entry; never empty for a non-empty list |
| Profile.UserMeanBounds | js/recommender.js:16-17 | the user mean lies between the lowest and the highest rated score |
| Profile.AddEntryGenres | js/recommender.js:23-28 | the inner genre loop equals the fold that adds each lowered genre once |
| Profile.AggregateGenres | js/recommender.js:20-29 | the genre aggregation loop equals the fold over the rated entries |
| Profile.GenreStatsValid | js/recommender.js:20-29 | the genre statistics list each genre key once |
| Profile.GenreStatsContents | js/recommender.js:20-29 | a genre key has statistics exactly when it occurs on a rated entry; its count is its number of occurrences and its sum the total of those entries' scores |
| Profile.GenreScore | js/recommender.js:32-34 | a genre's score is 0 without occurrences, positive (negative) exactly when its mean is above (below) the user mean, and no larger than the centred difference |
| Profile.GenreScores | js/recommender.js:30-35 | the genre score map has the same keys, in the same order, as the genre statistics |
| Profile.Liked | js/recommender.js:37-41 | the liked map holds exactly the genres with a positive score, with that score |
| Profile.Disliked | js/recommender.js:37-41 | the disliked map holds exactly the genres with a negative score, with its magnitude |
| Profile.SplitPartition | js/recommender.js:37-41 | a scored genre is on one side at most, and on some side exactly when its score is not zero |
| Profile.Normalize | js/recommender.js:42-46 | normalising keeps keys and order; each weight is the positive part over the positive mass (or 1), in [0, 1], and positive exactly when the input was |
| Profile.NormalizeSumsToOne | js/recommender.js:42-46 | with some positive value, the normalised weights sum to exactly 1 |
| Profile.WeightsAreDistribution | js/recommender.js:47-48 | a liked or disliked map becomes weights in (0, 1] over the same keys, summing to 1; an empty map stays empty |
| Profile.AddEntryTags | js/recommender.js:54-62 | the inner tag loop equals the fold that adds each named tag with its relevance |
| Profile.AggregateTags | js/recommender.js:51-63 | the tag aggregation loop equals the fold over the rated entries |
| Profile.TagAggValid | js/recommender.js:51-63 | the tag aggregates list each tag key once |
| Profile.TagAggContents | js/recommender.js:51-63 | a tag key has an aggregate exactly when a named tag lowers to it; it holds the relevance-weighted score sum, the relevance mass and the occurrence count |
| Profile.TagScore | js/recommender.js:68-72 | a tag's score is 0 without relevance mass; otherwise it has the sign of its centred relevance-weighted mean and no larger magnitude |
| Profile.TagScores | js/recommender.js:66-73 | the tag score map has the same keys, in the same order, as the tag aggregates |
| Profile.SplitWeights | js/recommender.js:37-48 | the two weight maps are distributions over exactly the liked and the disliked genres |
| Profile.ProfileWellFormed | js/recommender.js:9-73 | the profile's maps list each key once; the weight maps are distributions over the liked and disliked genres |
| Profile.BuildProfile | js/recommender.js:9-73 | the profile stage, with its two loops, computes the specified profile |
| Selection.TopKeys | js/recommender.js:81-82 | the chosen keys are n (or all) distinct keys of the map, and all keys when n is large enough |
| Selection.TopKeysRanked | js/recommender.js:81-82 | the chosen keys come in non-increasing order of the sort key, and no key left out beats a chosen one |
| Selection.SelectGenres | js/recommender.js:76-78 | at most n distinct genres, all liked when some genre is liked, otherwise all scored |
| Selection.SelectGenresRanked | js/recommender.js:76-78 | the genres to fetch are a best-first top n: by score among liked genres, or by magnitude when none is liked |
| Selection.SelectTags | js/recommender.js:81-82 | at most n distinct scored tags |
| Selection.SelectTagsRanked | js/recommender.js:81-82 | the tags to fetch are the top n by magnitude, best first |
| Selection.MergeKeys | js/recommender.js:94-97 | the candidate map holds an id exactly when some fetched item carries it and it is not missing |
| Selection.MergeKeepsLast | js/recommender.js:94-97 | the record stored for an id is the last fetched item that carries it |
| Selection.MergeBatch | js/recommender.js:95-97 | the loop over one batch equals the merge fold extended by that batch |
| Selection.MergeBatches | js/recommender.js:94-98 | the merge loops produce the specified candidate list |
| Selection.CandidatesSound | js/recommender.js:94-98 | candidates have distinct non-missing ids; each is a fetched item, the last one with its id; every fetched id is represented |
| Scoring.AlignmentBounds | js/recommender.js:112-113 | against a weight map, a candidate's alignment lies between 0 and its genre count, and is positive exactly when one of its genres is weighted |
| Scoring.PenalisedClamp | js/recommender.js:114 | the genre score (and, at line 129, the tag alignment) lies in [0, 1], and equals the liked part minus the weighted disliked part when that lies in [0, 1] |
| Scoring.AccumulateTagSums | js/recommender.js:117-126 | the tag loop computes the specified four accumulators |
| Scoring.TagSumsBounds | js/recommender.js:117-126 | each numerator lies between 0 and its denominator; with no allow-listed tag all four stay 0 |
| Scoring.Ratio | js/recommender.js:127-128 | a match score is 0 when its denominator is 0, and in [0, 1] when the numerator is between 0 and the denominator |
| Scoring.Pow | js/recommender.js:134 | a power of a number in [0, 1] stays in [0, 1] |
| Scoring.PowMonotone | js/recommender.js:134 | on [0, 1], a larger base gives a larger or equal power |
| Scoring.Combine | js/recommender.js:132-137 | without liked genres the combined score is the tag alignment; with them it is 0 for a zero genre score, and otherwise between the genre score and 1 + multiplier |
| Scoring.CombineMonotoneInTags | js/recommender.js:132-137 | with liked genres, a better tag alignment never lowers the combined score |
| Scoring.ScoreCandidate | js/recommender.js:110-139 | a scored candidate keeps its media; genre score and tag alignment lie in [0, 1]; the combined score obeys the rules of Combine |
| Scoring.TagScoresInRange | js/recommender.js:117-128 | with non-negative tag ranks, both match scores lie in [0, 1], and are 0 (as is the alignment) without allow-listed tags |
| Scoring.NoLikedGenreNoScore | js/recommender.js:112-137 | a candidate with no liked genre gets genre score 0, and combined score 0 when the user likes some genre |
| Scoring.ScoreOne | js/recommender.js:111-138 | scoring one candidate with the in-place tag loop gives the specified record |
| Scoring.ScoreAll | js/recommender.js:110-139 | every candidate is scored, in order |
| Ranking.HasMorePopularPrequel | js/recommender.js:149-156 | true exactly when some PREQUEL edge with a node id points to a more popular or lower-id node |
| Ranking.FilterCandidates | js/recommender.js:143-162 | the kept candidates are scored candidates that pass all four tests, and every candidate that passes is kept |
| Ranking.OlderPrequelDrops | js/recommender.js:149-157 | a PREQUEL edge to a lower id drops the candidate whatever the popularities |
| Ranking.PopularPrequelDrops | js/recommender.js:149-157 | a PREQUEL edge to a more popular node drops the candidate |
| Ranking.RankByCombined | js/recommender.js:165 | the ranking is sorted by descending combined score and is a permutation of the filtered candidates |
| Ranking.RankedFirstIsBest | js/recommender.js:165 | the first ranked candidate has the highest combined score of all |
| Ranking.NodeIdsMembers | js/recommender.js:173 | the related ids are exactly the non-missing node ids of the edges |
| Ranking.ConflictWitness | js/recommender.js:172-175 | a skipped item has an id, its own or a related one, that is already selected |
| Ranking.NoConflict | js/recommender.js:172-175 | an item that is not skipped has no id of its footprint selected |
| Ranking.ScanClaimed | js/recommender.js:169-178 | the selected ids are exactly the own and related ids of the kept items |
| Ranking.ScanPositions | js/recommender.js:170-180 | the kept items are scanned items, in scan order |
| Ranking.ScanKeepsFirst | js/recommender.js:170-178 | the first item scanned is always kept |
| Ranking.ScanGrows | js/recommender.js:170-180 | scanning further only appends to the kept items |
| Ranking.ScanDisjoint | js/recommender.js:170-178 | no two kept items share an id of their footprints |
| Ranking.ScanShadowed | js/recommender.js:170-178 | every scanned item that is not kept shares an id with an item kept before it |
| Ranking.DedupeProperties | js/recommender.js:167-180 | when the dedupe stops: kept items are in ranking order and never from one franchise; the top item is kept; every other item is missing because it shares an id with an earlier kept item or because the list was full |
| Ranking.FranchiseDedupe | js/recommender.js:167-180 | the dedupe loop keeps what the greedy scan keeps, holds at most max(1, MAX_RECOMMENDATIONS) items, and stops at the first point where the list is full |
| Ranking.DisjointFootprints | js/recommender.js:172-178 | no two kept items share an id, and neither is related to the other |
| Ranking.PickedStaysSorted | js/recommender.js:165-180 | keeping items in ranking order keeps them sorted by combined score |
| Ranking.OutOfFinal | js/recommender.js:165-180 | a ranked item the dedupe left out shares an id with a kept item ranked at least as high, or the list is full of items ranked at least as high |
| Ranking.DedupeKeeps | js/recommender.js:143-180 | the dedupe of the ranked, filtered candidates keeps passing candidates, best first, never two from one franchise, led by the best passing candidate |
| Ranking.DedupeOmits | js/recommender.js:143-180 | every passing candidate missing from the dedupe's result conflicts with a kept item ranked at least as high, or the list is full of items ranked at least as high |
| Ranking.RankAndDedupe | js/recommender.js:143-180 | the result is exactly the greedy dedupe of the stable descending ranking of the passing candidates, stopped when the list is full: passing candidates, best first, at most the cap, never two from one franchise; the best passing candidate leads; any other passing one is missing only because it shares an id with a kept item ranked at least as high, or because the list is full of items ranked at least as high |
| Recommender.PlanShape | js/recommender.js:85-91 | the genre queries precede the tag queries, and no query is sent twice |
| Recommender.PlanOf | js/recommender.js:76-91 | at most the two fetch counts of queries, distinct, genre queries first, each with its kind's page count, on a scored genre (a liked one whenever one is liked) or a scored tag |
| Recommender.Fetched | js/recommender.js:78 | `slice(0, n)` keeps n keys, or all of them when fewer are available |
| Recommender.PlanRanked | js/recommender.js:76-91 | the plan has exactly min(genre fetch count, liked genres — or scored genres when none is liked) genre queries, then exactly min(tag fetch count, scored tags) tag queries; each part is best first by its ranking key, and no genre or tag without a query ranks above one that has one |
| Recommender.FetchAll | js/recommender.js:91 | all answers in query order, or nothing exactly when some query fails |
| Recommender.Recommend | js/recommender.js:1-183 | fails with "user not found", "no entries" (exactly when every list is empty) or "fetch failed" exactly when the source throws; otherwise returns recommendations from the merged candidates, each scored against the user's profile and passing the filter, best first, at most the cap, never two from one franchise; the best eligible candidate leads; any other is missing only because it shares an id with a recommended item ranked at least as high, or because the list is full of items ranked at least as high; the list is exactly the greedy dedupe of the ranked, filtered scores |
| Recommender.RankCandidates | js/recommender.js:99-180 | scoring, filtering, ranking and dedupe of the merged candidates give exactly what a successful `recommend` returns for them |
| Recommender.CandidatesOmitted | js/recommender.js:165-180 | an eligible candidate missing from the recommendations conflicts with a recommended item ranked at least as high, or the list is full of items ranked at least as high |

## Left out

- The network is not modelled. `fetchUserEntries` and `fetchCandidates` (js/api.js, with its paging and GraphQL query) are replaced by the inputs `lists` and `retrieve`. The page count is carried in each query but has no effect inside the model.
- `async`/`await` and `Promise.all` are not modelled. The queries are answered in order, and the outcome does not depend on arrival order.
- Recommender.Recommend: one failed fetch rejects `Promise.all` and so the whole call; a failed batch is not treated as empty.
- Ranking.FranchiseDedupe: a single-hop check; an item is skipped only when its own id or one of its direct relation ids is claimed, so chains of relations do not form one group.
- Recommender.Recommend merges "user not found" and "no anime list" into one error, as the code does, with one thrown message for both.
- Floating point is modelled as exact `real` arithmetic. Rounding, NaN and infinities are not captured.
- Scoring.Pow takes a whole-number exponent. `Math.pow` with a fractional `TAG_EXPONENT` is not modelled.
- Utils.Lower trims and lower-cases ASCII only. Unicode whitespace and Unicode case mapping are not modelled.
- Utils.Lower models the `.toString()` of non-string values only for strings and the absent value.
- Missing ids, node ids, popularities and ranks are modelled as 0, so `?.`, `||` and `??` on them become comparisons with 0. These are the values `?? 0` and `|| 0` give the source for a missing popularity or rank.
- Ranking.RankByCombined is a stable insertion sort on a sequence. Stability matches `Array.prototype.sort`, but only sortedness and permutation are proved. The in-place sort of the array is modelled on values.
- These values are computed by the source but never read afterwards, so they are not modelled: `totalCandidates`, `allIds`, `sumPos` and `sumNeg`. The copy `userTagWeights` is also not modelled; the model reads the tag scores directly.
- The tag field `isMediaSpoiler`, titles and cover images are not modelled: the recommender never reads them.
- The tuning constants are a `Config` value rather than globals. The fetch counts are whole numbers, and the two shrinkage constants are assumed positive (`ValidConfig`, the only precondition of `Recommend` and `BuildProfile`).
- An absent tag name is modelled as the empty string. `lower` maps both to the empty key, and the profile skips both.
- A missing entry score (null, undefined or 0) is modelled as 0, which is what `e.score || 0` reads it as.
- Malformed scores are out of scope: a truthy non-number such as the string "80" is excluded from the rated entries when some entry has a positive numeric score; when the fallback takes all entries, `+=` concatenates it into the sums.
- Dicts.Dict keeps first-insertion order for every key. `Object.entries` lists array-index keys (such as "1" or "42") first, in ascending numeric order; genre and tag names that are whole numbers are not modelled.
- Dicts.Dict treats every key as an own property. A genre or tag that lowers to an inherited `Object.prototype` name ("constructor", "__proto__") is read as already present by `obj[k]` in the source, so it drops out of the statistics and scores NaN; this is not modelled.
