/** The two stages of `recommend` between the profile and the scoring
    (js/recommender.js, lines 76-98): choosing the genre and tag keys to
    fetch candidates for, and merging the fetched batches into one
    candidate list keyed by media id. */
module Selection {
  import opened Seqs
  import opened Dicts
  import opened Anime
  import opened Utils

  // ---------------------------------------------------------------- fetch keys

  /** The keys of `d` sorted by descending `key` of their values, then the first `n`.
      The comparator reads only the values, so sorting the keys by their
      value gives the same order as sorting the entries and projecting. */
  function TopKeys(d: Dict<string, real>, key: real -> real, n: nat): (r: seq<string>)
    requires d.Valid()
    ensures |r| == if n <= |d.order| then n else |d.order|
    ensures Distinct(r)
    ensures forall i :: 0 <= i < |r| ==> r[i] in d.table
    ensures n >= |d.order| ==> forall k :: k in d.table ==> k in r
  {
    var sorted := SortKeys(d, key);
    assert forall k :: k in d.table ==> k in multiset(d.order);
    Take(sorted, n)
  }

  /** The keys of `d`, reordered by descending `key` of their values. */
  function SortKeys(d: Dict<string, real>, key: real -> real): (s: seq<string>)
    requires d.Valid()
    ensures multiset(s) == multiset(d.order) && Distinct(s)
    ensures forall i :: 0 <= i < |s| ==> s[i] in d.table
  {
    var s := SortDesc(d.order, (k: string) => key(d.Get(k, 0.0)));
    PermutationDistinct(d.order, s);
    assert forall i :: 0 <= i < |s| ==> s[i] in multiset(d.order);
    s
  }

  /** The chosen keys are the best ones: they come in non-increasing `key`
      order, and no key left out beats a chosen one. */
  lemma TopKeysRanked(d: Dict<string, real>, key: real -> real, n: nat)
    requires d.Valid()
    ensures var r := TopKeys(d, key, n);
      && (forall i, j :: 0 <= i < j < |r| ==> key(d.table[r[i]]) >= key(d.table[r[j]]))
      && (forall k, i :: k in d.table && k !in r && 0 <= i < |r| ==> key(d.table[k]) <= key(d.table[r[i]]))
  {
    var kf := (k: string) => key(d.Get(k, 0.0));
    var sorted := SortKeys(d, key);
    assert sorted == SortDesc(d.order, kf);
    var r := TopKeys(d, key, n);
    assert r == Take(sorted, n);
    forall i, j | 0 <= i < j < |r| ensures key(d.table[r[i]]) >= key(d.table[r[j]]) {
      assert r[i] == sorted[i] && r[j] == sorted[j];
      assert r[i] in d.table && r[j] in d.table;
      assert kf(sorted[i]) >= kf(sorted[j]);
      assert d.Get(r[i], 0.0) == d.table[r[i]] && d.Get(r[j], 0.0) == d.table[r[j]];
    }
    forall k, i | k in d.table && k !in r && 0 <= i < |r|
      ensures key(d.table[k]) <= key(d.table[r[i]])
    {
      assert k in multiset(sorted);
      var p :| 0 <= p < |sorted| && sorted[p] == k;
      assert forall q :: 0 <= q < |r| ==> r[q] == sorted[q];
      assert p >= |r|;
      assert r[i] == sorted[i] && r[i] in d.table;
      assert kf(sorted[i]) >= kf(sorted[p]);
      assert d.Get(k, 0.0) == d.table[k] && d.Get(r[i], 0.0) == d.table[r[i]];
    }
  }

  function Identity(x: real): real {
    x
  }

  /** `GENRES_TO_FETCH`: the liked genres by descending score when there are
      any, else every scored genre by descending magnitude; at most `n`. */
  function SelectGenres(liked: Dict<string, real>, scores: Dict<string, real>, n: nat): (r: seq<string>)
    requires liked.Valid() && scores.Valid()
    ensures |r| <= n && Distinct(r)
    ensures liked.order != [] ==> forall i :: 0 <= i < |r| ==> r[i] in liked.table
    ensures liked.order == [] ==> forall i :: 0 <= i < |r| ==> r[i] in scores.table
  {
    if |liked.order| > 0 then TopKeys(liked, Identity, n) else TopKeys(scores, Abs, n)
  }

  /** `TAGS_TO_FETCH`: the scored tags by descending magnitude, at most `n`. */
  function SelectTags(tagScores: Dict<string, real>, n: nat): (r: seq<string>)
    requires tagScores.Valid()
    ensures |r| <= n && Distinct(r)
    ensures forall i :: 0 <= i < |r| ==> r[i] in tagScores.table
  {
    TopKeys(tagScores, Abs, n)
  }

  /** Which genres get fetched: with a liked genre, the best-scoring liked
      genres; without one, the genres of largest magnitude, whether liked
      or disliked. Either way the choice is a top-`n` by that measure. */
  lemma SelectGenresRanked(liked: Dict<string, real>, scores: Dict<string, real>, n: nat)
    requires liked.Valid() && scores.Valid()
    ensures var r := SelectGenres(liked, scores, n);
      && (liked.order != [] ==>
            && |r| == (if n <= |liked.order| then n else |liked.order|)
            && (forall i, j :: 0 <= i < j < |r| ==> liked.table[r[i]] >= liked.table[r[j]])
            && (forall g, i :: g in liked.table && g !in r && 0 <= i < |r| ==> liked.table[g] <= liked.table[r[i]]))
      && (liked.order == [] ==>
            && |r| == (if n <= |scores.order| then n else |scores.order|)
            && (forall i, j :: 0 <= i < j < |r| ==> Abs(scores.table[r[i]]) >= Abs(scores.table[r[j]]))
            && (forall g, i :: g in scores.table && g !in r && 0 <= i < |r| ==> Abs(scores.table[g]) <= Abs(scores.table[r[i]])))
  {
    if liked.order != [] {
      TopKeysRanked(liked, Identity, n);
    } else {
      TopKeysRanked(scores, Abs, n);
    }
  }

  /** The tags fetched are the `n` of largest magnitude, best first. */
  lemma SelectTagsRanked(tagScores: Dict<string, real>, n: nat)
    requires tagScores.Valid()
    ensures var r := SelectTags(tagScores, n);
      && |r| == (if n <= |tagScores.order| then n else |tagScores.order|)
      && (forall i, j :: 0 <= i < j < |r| ==> Abs(tagScores.table[r[i]]) >= Abs(tagScores.table[r[j]]))
      && (forall t, i :: t in tagScores.table && t !in r && 0 <= i < |r| ==> Abs(tagScores.table[t]) <= Abs(tagScores.table[r[i]]))
  {
    TopKeysRanked(tagScores, Abs, n);
  }

  // ---------------------------------------------------------------- merge

  /** One fetched item: stored under its id unless the id is missing. */
  function AddCandidate(d: Dict<int, Media>, m: Media): Dict<int, Media> {
    if m.id != 0 then d.Set(m.id, m) else d
  }

  /** `candidateMap` after the items have been added in order. */
  function MergeItems(items: seq<Media>): Dict<int, Media> {
    if items == [] then Empty()
    else AddCandidate(MergeItems(items[..|items| - 1]), items[|items| - 1])
  }

  lemma {:induction false} MergeValid(items: seq<Media>)
    ensures MergeItems(items).Valid()
  {
    if items != [] {
      var prev := MergeItems(items[..|items| - 1]);
      MergeValid(items[..|items| - 1]);
      var m := items[|items| - 1];
      if m.id != 0 {
        SetValid(prev, m.id, m);
      }
    }
  }

  /** `x` occurs in `all`, and no later item of `all` carries its id. */
  ghost predicate LastWithId(all: seq<Media>, x: Media) {
    exists p :: 0 <= p < |all| && all[p] == x && forall q :: p < q < |all| ==> all[q].id != x.id
  }

  /** `candidateMap` holds an id exactly when some item carries it and it is
      not the missing id 0. */
  lemma {:induction false} MergeKeys(items: seq<Media>, k: int)
    ensures k in MergeItems(items).table <==> k != 0 && exists i :: 0 <= i < |items| && items[i].id == k
  {
    if items != [] {
      var init := items[..|items| - 1];
      MergeKeys(init, k);
      if k != 0 && (exists i :: 0 <= i < |items| && items[i].id == k) && items[|items| - 1].id != k {
        var i :| 0 <= i < |items| && items[i].id == k;
        assert init[i] == items[i];
      }
    }
  }

  /** The record stored under an id is the last item carrying that id. */
  lemma {:induction false} MergeKeepsLast(items: seq<Media>, k: int)
    requires k in MergeItems(items).table
    ensures LastWithId(items, MergeItems(items).table[k]) && MergeItems(items).table[k].id == k
  {
    MergeKeys(items, k);
    var init, m := items[..|items| - 1], items[|items| - 1];
    var prev := MergeItems(init);
    var x := MergeItems(items).table[k];
    if m.id == k {
      assert x == m;
      assert LastWithId(items, x) by {
        assert items[|items| - 1] == x;
      }
    } else {
      assert k in prev.table && x == prev.table[k];
      MergeKeepsLast(init, k);
      var p :| 0 <= p < |init| && init[p] == x && forall q :: p < q < |init| ==> init[q].id != x.id;
      assert items[p] == x;
      forall q | p < q < |items| ensures items[q].id != x.id {
        if q < |init| {
          assert items[q] == init[q];
        }
      }
    }
  }

  /** `Array.from(candidateMap.values())` after merging every batch. */
  function Candidates(batches: seq<seq<Media>>): (cs: seq<Media>)
    ensures |cs| == |MergeItems(Flatten(batches)).order|
  {
    var d := MergeItems(Flatten(batches));
    MergeValid(Flatten(batches));
    d.Values()
  }

  /** The merged candidates: no id twice, none missing, every fetched item
      with an id represented, and each id represented by its last fetched
      record. */
  lemma CandidatesSound(batches: seq<seq<Media>>)
    ensures var cs, all := Candidates(batches), Flatten(batches);
      && (forall i, j :: 0 <= i < j < |cs| ==> cs[i].id != cs[j].id)
      && (forall i :: 0 <= i < |cs| ==> cs[i].id != 0 && cs[i] in all)
      && (forall x :: x in all && x.id != 0 ==> exists i :: 0 <= i < |cs| && cs[i].id == x.id)
      && (forall i :: 0 <= i < |cs| ==> LastWithId(all, cs[i]))
  {
    var all := Flatten(batches);
    var d := MergeItems(all);
    MergeValid(all);
    var cs := Candidates(batches);
    assert forall i :: 0 <= i < |cs| ==> cs[i] == d.table[d.order[i]];
    forall i | 0 <= i < |cs|
      ensures cs[i].id == d.order[i] && cs[i].id != 0 && cs[i] in all
      ensures LastWithId(all, cs[i])
    {
      assert d.order[i] in d.table;
      MergeKeys(all, d.order[i]);
      MergeKeepsLast(all, d.order[i]);
      var p :| 0 <= p < |all| && all[p] == cs[i] && forall q :: p < q < |all| ==> all[q].id != cs[i].id;
    }
    forall x | x in all && x.id != 0 ensures exists i :: 0 <= i < |cs| && cs[i].id == x.id {
      var p :| 0 <= p < |all| && all[p] == x;
      MergeKeys(all, x.id);
      var i :| 0 <= i < |d.order| && d.order[i] == x.id;
      assert cs[i].id == x.id;
    }
  }

  /** Taking one more item of a batch is one more `set`. */
  lemma MergeStep(seen: seq<Media>, batch: seq<Media>, j: nat)
    requires j < |batch|
    ensures MergeItems(seen + batch[..j + 1]) == AddCandidate(MergeItems(seen + batch[..j]), batch[j])
  {
    var xs := seen + batch[..j + 1];
    assert xs[..|xs| - 1] == seen + batch[..j];
  }

  /** The inner `forEach` over one fetched batch. */
  method MergeBatch(d0: Dict<int, Media>, ghost seen: seq<Media>, batch: seq<Media>)
    returns (d: Dict<int, Media>)
    requires d0 == MergeItems(seen)
    ensures d == MergeItems(seen + batch)
  {
    d := d0;
    var j := 0;
    assert seen + batch[..0] == seen;
    while j < |batch|
      invariant 0 <= j <= |batch|
      invariant d == MergeItems(seen + batch[..j])
    {
      MergeStep(seen, batch, j);
      d := AddCandidate(d, batch[j]);
      j := j + 1;
    }
    assert batch[..j] == batch;
  }

  /** The outer `forEach` over the fetched batches, then `Array.from(candidateMap.values())`. */
  method MergeBatches(batches: seq<seq<Media>>) returns (cands: seq<Media>)
    ensures cands == Candidates(batches)
  {
    var d: Dict<int, Media> := Empty();
    var i := 0;
    while i < |batches|
      invariant 0 <= i <= |batches|
      invariant d == MergeItems(Flatten(batches[..i]))
    {
      d := MergeBatch(d, Flatten(batches[..i]), batches[i]);
      assert batches[..i + 1][..i] == batches[..i];
      i := i + 1;
    }
    assert batches[..i] == batches;
    MergeValid(Flatten(batches));
    cands := d.Values();
  }
}
