/** The records the recommender reads, as the AniList catalog returns them,
    and its tuning constants. Fields the recommender never reads (titles,
    cover images, the spoiler flag on tags) are not modelled. */
module Anime {

  /** A tag on a media item; `rank` is its relevance to the item, 0 to 100. */
  datatype Tag = Tag(name: string, rank: int)

  /** One edge of `relations.edges`: the relation type and the related node's
      id and popularity. An id of 0 stands for a missing node id. */
  datatype Relation = Relation(relationType: string, nodeId: int, nodePopularity: int)

  /** A media item. An id of 0 stands for a missing id (both are falsy). */
  datatype Media = Media(
    id: int,
    genres: seq<string>,
    tags: seq<Tag>,
    format: string,
    popularity: int,
    relations: seq<Relation>)

  /** One entry of the user's list; a score of 0 means "not rated". */
  datatype Entry = Entry(score: real, media: Media)

  /** A candidate with the scores the ranking computed for it. */
  datatype Scored = Scored(
    media: Media,
    genreScore: real,
    tagAlignment: real,
    combined: real,
    posScore: real,
    negScore: real)

  /** The tuning constants the recommender reads as globals. */
  datatype Config = Config(
    shrinkageK: real,
    tagShrinkageK: real,
    genresToFetchCount: nat,
    tagsToFetchCount: nat,
    pagesPerGenre: int,
    pagesPerTag: int,
    negGenrePenalty: real,
    negativeTagFactor: real,
    tagMultiplier: real,
    tagExponent: nat,
    relevantTags: seq<string>,
    maxRecommendations: int)

  /** Both shrinkage constants are positive, so no shrinkage factor divides by zero. */
  predicate ValidConfig(cfg: Config) {
    cfg.shrinkageK > 0.0 && cfg.tagShrinkageK > 0.0
  }

  function Min(a: real, b: real): real {
    if a <= b then a else b
  }

  /** How much a tag occurrence counts: `Math.min(1, rank / 100)`. */
  function Relevance(rank: int): (rel: real)
    ensures rel <= 1.0
    ensures rank >= 0 ==> 0.0 <= rel
    ensures rank >= 100 ==> rel == 1.0
    ensures 0 <= rank <= 100 ==> rel * 100.0 == rank as real
  {
    Min(1.0, rank as real / 100.0)
  }

  /** A value counted with weight `rel`: `x * rel`. */
  function Weigh(x: real, rel: real): real {
    x * rel
  }

}
