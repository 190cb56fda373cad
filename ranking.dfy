/** The last stages of `recommend` (js/recommender.js, lines 141-180): the
    filter that drops watched items, items related to watched ones, sequels
    and music videos or specials; the sort by combined score; and the
    franchise dedupe that keeps, of each group of related items, only the
    best-placed one. */
module Ranking {
  import opened Seqs
  import opened Anime
  import opened Utils

  // ---------------------------------------------------------------- filter

  /** An edge that makes `m` the later entry of a franchise: a PREQUEL edge
      with a node id, to a node that is more popular or (by its lower id) older. */
  predicate PrequelFirst(r: Relation, m: Media) {
    && r.relationType == "PREQUEL"
    && r.nodeId != 0
    && (r.nodePopularity > m.popularity || r.nodeId < m.id)
  }

  /** `hasMorePopularPrequel` for candidate `m`. */
  function HasMorePopularPrequel(m: Media): (b: bool)
    ensures b <==> exists i :: 0 <= i < |m.relations| && PrequelFirst(m.relations[i], m)
  {
    Any(m.relations, (r: Relation) => PrequelFirst(r, m))
  }

  /** The formats that are never recommended. */
  predicate ExcludedFormat(format: string) {
    format == "MUSIC" || format == "SPECIAL"
  }

  /** The test `candidateScores.filter` applies to one scored candidate. */
  predicate Keep(s: Scored, watched: set<int>) {
    && s.media.id !in watched
    && !IsRelatedToWatched(s.media, watched)
    && !HasMorePopularPrequel(s.media)
    && !ExcludedFormat(s.media.format)
  }

  /** `filteredCandidates`: the scored candidates that pass every test, and
      all of them. */
  function FilterCandidates(items: seq<Scored>, watched: set<int>): (r: seq<Scored>)
    ensures |r| <= |items|
    ensures forall i :: 0 <= i < |r| ==> r[i] in items
    ensures forall i :: 0 <= i < |r| ==>
      && r[i].media.id !in watched
      && !IsRelatedToWatched(r[i].media, watched)
      && !HasMorePopularPrequel(r[i].media)
      && r[i].media.format != "MUSIC" && r[i].media.format != "SPECIAL"
    ensures forall i :: 0 <= i < |items| && Keep(items[i], watched) ==> items[i] in r
  {
    Filter(items, (s: Scored) => Keep(s, watched))
  }

  /** A candidate with a PREQUEL edge to an older node is dropped, whatever
      the popularities: the earliest entry of a franchise is shown instead. */
  lemma OlderPrequelDrops(s: Scored, watched: set<int>, i: nat)
    requires i < |s.media.relations|
    requires s.media.relations[i].relationType == "PREQUEL"
    requires 0 != s.media.relations[i].nodeId < s.media.id
    ensures !Keep(s, watched)
  {
    assert PrequelFirst(s.media.relations[i], s.media);
  }

  /** A candidate with a PREQUEL edge to a more popular node is dropped: the
      better-known earlier entry is shown instead. */
  lemma PopularPrequelDrops(s: Scored, watched: set<int>, i: nat)
    requires i < |s.media.relations|
    requires s.media.relations[i].relationType == "PREQUEL" && s.media.relations[i].nodeId != 0
    requires s.media.relations[i].nodePopularity > s.media.popularity
    ensures !Keep(s, watched)
  {
    assert PrequelFirst(s.media.relations[i], s.media);
  }

  // ---------------------------------------------------------------- sort

  function Combined(s: Scored): real {
    s.combined
  }

  /** The sort of the filtered candidates by descending combined score. */
  function RankByCombined(items: seq<Scored>): (r: seq<Scored>)
    ensures SortedDesc(r, Combined)
    ensures multiset(r) == multiset(items)
  {
    SortDesc(items, Combined)
  }

  /** The first ranked item has the highest combined score of them all. */
  lemma RankedFirstIsBest(items: seq<Scored>, x: Scored)
    requires x in items
    ensures var r := RankByCombined(items); r != [] && r[0].combined >= x.combined
  {
    var r := RankByCombined(items);
    assert x in multiset(items);
    assert x in r;
    var j :| 0 <= j < |r| && r[j] == x;
    if j > 0 {
      assert Combined(r[0]) >= Combined(r[j]);
    }
  }

  // ---------------------------------------------------------------- franchise dedupe

  /** The ids `m`'s relation edges point to, missing ids left out. */
  function RelatedIds(m: Media): set<int> {
    NodeIds(m.relations)
  }

  /** The non-missing node ids of a list of edges. */
  function NodeIds(rels: seq<Relation>): set<int> {
    if rels == [] then {}
    else (if rels[0].nodeId != 0 then {rels[0].nodeId} else {}) + NodeIds(rels[1..])
  }

  /** The related ids are exactly the non-missing node ids of the edges. */
  lemma {:induction false} NodeIdsMembers(rels: seq<Relation>, id: int)
    ensures id in NodeIds(rels) <==> id != 0 && exists i :: 0 <= i < |rels| && rels[i].nodeId == id
  {
    if rels != [] {
      NodeIdsMembers(rels[1..], id);
      if exists i :: 0 <= i < |rels[1..]| && rels[1..][i].nodeId == id {
        var i :| 0 <= i < |rels[1..]| && rels[1..][i].nodeId == id;
        assert rels[i + 1].nodeId == id;
      }
      if exists i :: 0 <= i < |rels| && rels[i].nodeId == id {
        var i :| 0 <= i < |rels| && rels[i].nodeId == id;
        if i > 0 {
          assert rels[1..][i - 1].nodeId == id;
        }
      }
    }
  }

  /** The ids a picked item claims for its franchise: its own and those of
      every item it is related to. */
  function Footprint(m: Media): set<int> {
    {m.id} + RelatedIds(m)
  }

  /** The dedupe's "some related id is already selected" test, read off the
      edges: some edge with a node id points into `claimed`. */
  predicate TouchesClaimed(rels: seq<Relation>, claimed: set<int>) {
    rels != [] && ((rels[0].nodeId != 0 && rels[0].nodeId in claimed) || TouchesClaimed(rels[1..], claimed))
  }

  /** The test that makes the dedupe skip `m`: its id or one of its related
      ids is already selected. */
  predicate Conflicts(m: Media, claimed: set<int>) {
    m.id in claimed || TouchesClaimed(m.relations, claimed)
  }

  lemma {:induction false} NothingClaimed(rels: seq<Relation>)
    ensures !TouchesClaimed(rels, {})
  {
    if rels != [] {
      NothingClaimed(rels[1..]);
    }
  }

  lemma {:induction false} TouchesWitness(rels: seq<Relation>, claimed: set<int>) returns (x: int)
    requires TouchesClaimed(rels, claimed)
    ensures x in NodeIds(rels) && x in claimed
  {
    if rels[0].nodeId != 0 && rels[0].nodeId in claimed {
      x := rels[0].nodeId;
    } else {
      x := TouchesWitness(rels[1..], claimed);
    }
  }

  lemma {:induction false} NoTouch(rels: seq<Relation>, claimed: set<int>, x: int)
    requires !TouchesClaimed(rels, claimed) && x in NodeIds(rels)
    ensures x !in claimed
  {
    if rels[0].nodeId != 0 && x == rels[0].nodeId {
    } else {
      NoTouch(rels[1..], claimed, x);
    }
  }

  /** A conflict is exactly a footprint id that is already claimed. */
  lemma ConflictWitness(m: Media, claimed: set<int>) returns (x: int)
    requires Conflicts(m, claimed)
    ensures x in Footprint(m) && x in claimed
  {
    if m.id in claimed {
      x := m.id;
    } else {
      x := TouchesWitness(m.relations, claimed);
    }
  }

  lemma NoConflict(m: Media, claimed: set<int>)
    requires !Conflicts(m, claimed)
    ensures forall x :: x in Footprint(m) ==> x !in claimed
  {
    forall x | x in Footprint(m) ensures x !in claimed {
      if x != m.id {
        NoTouch(m.relations, claimed, x);
      }
    }
  }

  /** The most items the dedupe keeps: `final.length >= MAX_RECOMMENDATIONS`
      is tested only after a push, so at least one item is always kept. */
  function Cap(maxCount: int): nat {
    if maxCount >= 1 then maxCount else 1
  }

  /** Item `x`, at position `i` of the ranking, shares an id with the
      footprint of an item kept before it. */
  ghost predicate Shadowed(x: Media, kept: seq<Scored>, at: seq<nat>, i: nat) {
    exists k :: 0 <= k < |kept| && k < |at| && at[k] < i && Footprint(x) * Footprint(kept[k].media) != {}
  }

  /** The state of the dedupe: the items kept so far, their positions in the
      ranking, and `selectedIds`. */
  datatype Scanned = Scanned(kept: seq<Scored>, at: seq<nat>, claimed: set<int>)

  /** The dedupe without its limit: the greedy scan of `items[..n]` that
      keeps an item when no id of its footprint has been claimed by an item
      kept before it. */
  function Scan(items: seq<Scored>, n: nat): Scanned
    requires n <= |items|
  {
    if n == 0 then Scanned([], [], {})
    else
      var prev := Scan(items, n - 1);
      var m := items[n - 1].media;
      if !Conflicts(m, prev.claimed) then Scanned(prev.kept + [items[n - 1]], prev.at + [n - 1], prev.claimed + Footprint(m))
      else prev
  }

  /** Some item of `kept` has `x` in its footprint. */
  ghost predicate ClaimedBy(kept: seq<Scored>, x: int) {
    exists k :: 0 <= k < |kept| && x in Footprint(kept[k].media)
  }

  /** The selected ids are exactly the ids of the kept items' footprints. */
  lemma {:induction false} ScanClaimed(items: seq<Scored>, n: nat, x: int)
    requires n <= |items|
    ensures x in Scan(items, n).claimed <==> ClaimedBy(Scan(items, n).kept, x)
  {
    if n > 0 {
      ScanClaimed(items, n - 1, x);
      var prev := Scan(items, n - 1);
      var m := items[n - 1].media;
      if !Conflicts(m, prev.claimed) {
        var r := Scan(items, n);
        if x in prev.claimed {
          var k :| 0 <= k < |prev.kept| && x in Footprint(prev.kept[k].media);
          assert r.kept[k] == prev.kept[k];
        } else if x in Footprint(m) {
          assert r.kept[|prev.kept|].media == m;
        }
        if exists k :: 0 <= k < |r.kept| && x in Footprint(r.kept[k].media) {
          var k :| 0 <= k < |r.kept| && x in Footprint(r.kept[k].media);
          if k < |prev.kept| {
            assert prev.kept[k] == r.kept[k];
          }
        }
      }
    }
  }

  /** `kept` holds the items of `items[..n]` at the increasing positions `at`. */
  ghost predicate AtPositions(items: seq<Scored>, r: Scanned, n: nat) {
    && |r.at| == |r.kept|
    && (forall k :: 0 <= k < |r.at| ==> r.at[k] < n && r.at[k] < |items| && r.kept[k] == items[r.at[k]])
    && (forall j, k :: 0 <= j < k < |r.at| ==> r.at[j] < r.at[k])
  }

  /** No two of the items share an id of their footprints. */
  ghost predicate FootprintsDisjoint(kept: seq<Scored>) {
    forall j, k :: 0 <= j < k < |kept| ==> Footprint(kept[j].media) !! Footprint(kept[k].media)
  }

  /** Every item of `items[..n]` left out shares an id with an item kept before it. */
  ghost predicate SkipsExplained(items: seq<Scored>, r: Scanned, n: nat) {
    forall i :: 0 <= i < n && i < |items| && i !in r.at ==> Shadowed(items[i].media, r.kept, r.at, i)
  }

  lemma {:induction false} ScanPositions(items: seq<Scored>, n: nat)
    requires n <= |items|
    ensures AtPositions(items, Scan(items, n), n)
  {
    if n > 0 {
      ScanPositions(items, n - 1);
    }
  }

  /** The first item scanned is always kept. */
  lemma {:induction false} ScanKeepsFirst(items: seq<Scored>, n: nat)
    requires 0 < n <= |items|
    ensures |Scan(items, n).at| > 0 && Scan(items, n).at[0] == 0
  {
    if n > 1 {
      ScanKeepsFirst(items, n - 1);
    } else {
      NothingClaimed(items[0].media.relations);
    }
  }

  /** The scan only ever adds items, so once the list is full it stays full:
      stopping at the first full prefix is stopping as early as possible. */
  lemma {:induction false} ScanGrows(items: seq<Scored>, a: nat, b: nat)
    requires a <= b <= |items|
    ensures |Scan(items, a).kept| <= |Scan(items, b).kept|
    ensures Scan(items, b).kept[..|Scan(items, a).kept|] == Scan(items, a).kept
  {
    if a < b {
      ScanGrows(items, a, b - 1);
      var prev := Scan(items, b - 1).kept;
      assert Scan(items, b).kept[..|prev|] == prev;
    }
  }

  /** No two kept items share an id of their footprints. */
  lemma {:induction false} ScanDisjoint(items: seq<Scored>, n: nat)
    requires n <= |items|
    ensures FootprintsDisjoint(Scan(items, n).kept)
  {
    if n > 0 {
      ScanDisjoint(items, n - 1);
      var prev := Scan(items, n - 1);
      if !Conflicts(items[n - 1].media, prev.claimed) {
        NoConflict(items[n - 1].media, prev.claimed);
        forall k, x | 0 <= k < |prev.kept| && x in Footprint(prev.kept[k].media)
          ensures x in prev.claimed
        {
          ScanClaimed(items, n - 1, x);
        }
        PushDisjoint(prev.kept, items[n - 1], prev.claimed);
      }
    }
  }

  lemma PushDisjoint(final: seq<Scored>, s: Scored, claimed: set<int>)
    requires FootprintsDisjoint(final)
    requires forall k, x :: 0 <= k < |final| && x in Footprint(final[k].media) ==> x in claimed
    requires forall x :: x in Footprint(s.media) ==> x !in claimed
    ensures FootprintsDisjoint(final + [s])
  {
    forall j | 0 <= j < |final|
      ensures Footprint(final[j].media) !! Footprint(s.media)
    {
      forall x | x in Footprint(final[j].media) ensures x !in Footprint(s.media) {
        assert x in claimed;
      }
    }
  }

  /** Every scanned item that was not kept shares an id with an item kept
      before it. */
  lemma {:induction false} ScanShadowed(items: seq<Scored>, n: nat)
    requires n <= |items|
    ensures SkipsExplained(items, Scan(items, n), n)
  {
    if n > 0 {
      ScanShadowed(items, n - 1);
      if Conflicts(items[n - 1].media, Scan(items, n - 1).claimed) {
        SkipStep(items, n - 1);
      } else {
        PushStep(items, n - 1);
      }
    }
  }

  /** A kept item keeps every earlier omission explained. */
  lemma PushStep(items: seq<Scored>, i: nat)
    requires i < |items| && SkipsExplained(items, Scan(items, i), i)
    requires !Conflicts(items[i].media, Scan(items, i).claimed)
    ensures SkipsExplained(items, Scan(items, i + 1), i + 1)
  {
    var prev := Scan(items, i);
    ScanPositions(items, i);
    PushExplained(items, prev, i);
  }

  /** A skipped item shares an id with an item kept before it. */
  lemma SkipStep(items: seq<Scored>, i: nat)
    requires i < |items| && SkipsExplained(items, Scan(items, i), i)
    requires Conflicts(items[i].media, Scan(items, i).claimed)
    ensures SkipsExplained(items, Scan(items, i + 1), i + 1)
  {
    var prev := Scan(items, i);
    assert Scan(items, i + 1) == prev;
    var x := ConflictWitness(items[i].media, prev.claimed);
    ScanClaimed(items, i, x);
    var k :| 0 <= k < |prev.kept| && x in Footprint(prev.kept[k].media);
    ScanPositions(items, i);
    SkipExplained(items, prev, i, k, x);
  }

  lemma PushExplained(items: seq<Scored>, prev: Scanned, i: nat)
    requires i < |items| && |prev.kept| == |prev.at| && SkipsExplained(items, prev, i)
    ensures SkipsExplained(items, Scanned(prev.kept + [items[i]], prev.at + [i], prev.claimed + Footprint(items[i].media)), i + 1)
  {
    forall j | 0 <= j < i + 1 && j < |items| && j !in prev.at + [i]
      ensures Shadowed(items[j].media, prev.kept + [items[i]], prev.at + [i], j)
    {
      ShadowedStays(items[j].media, prev.kept, prev.at, j, items[i], i);
    }
  }

  lemma SkipExplained(items: seq<Scored>, prev: Scanned, i: nat, k: nat, x: int)
    requires i < |items| && SkipsExplained(items, prev, i)
    requires k < |prev.kept| && k < |prev.at| && prev.at[k] < i
    requires x in Footprint(items[i].media) && x in Footprint(prev.kept[k].media)
    ensures SkipsExplained(items, prev, i + 1)
  {
    assert x in Footprint(items[i].media) * Footprint(prev.kept[k].media);
    assert Shadowed(items[i].media, prev.kept, prev.at, i);
  }

  lemma ShadowedStays(x: Media, kept: seq<Scored>, at: seq<nat>, i: nat, s: Scored, p: nat)
    requires |kept| == |at| && Shadowed(x, kept, at, i)
    ensures Shadowed(x, kept + [s], at + [p], i)
  {
    var k :| 0 <= k < |kept| && k < |at| && at[k] < i && Footprint(x) * Footprint(kept[k].media) != {};
    assert (kept + [s])[k] == kept[k] && (at + [p])[k] == at[k];
  }

  /** What the dedupe promises once it has scanned `items[..n]` and stopped,
      at the end of the ranking or with the list full: the kept items appear
      in ranking order, no two of them share an id of their footprints, the
      top-ranked item is always kept, and every other item was left out
      because it shares an id with an item kept before it or because the
      list was already full. */
  lemma DedupeProperties(items: seq<Scored>, n: nat, maxCount: int)
    requires n <= |items| && |Scan(items, n).kept| <= Cap(maxCount)
    requires n < |items| ==> |Scan(items, n).kept| == Cap(maxCount)
    ensures AtPositions(items, Scan(items, n), n)
    ensures FootprintsDisjoint(Scan(items, n).kept)
    ensures items != [] ==> Scan(items, n).kept != [] && Scan(items, n).kept[0] == items[0]
    ensures forall i :: 0 <= i < |items| && i !in Scan(items, n).at ==>
      || Shadowed(items[i].media, Scan(items, n).kept, Scan(items, n).at, i)
      || (n <= i && |Scan(items, n).kept| == Cap(maxCount))
  {
    ScanPositions(items, n);
    ScanDisjoint(items, n);
    ScanShadowed(items, n);
    if n > 0 {
      ScanKeepsFirst(items, n);
    } else if items != [] {
      assert false;
    }
  }

  /** `final` is what the dedupe loop leaves for the ranking `items`: the
      greedy scan of a prefix of `items` that ends at the end of the ranking
      or just after the item that fills the list. */
  ghost predicate Deduped(items: seq<Scored>, final: seq<Scored>, maxCount: int) {
    exists n :: 0 <= n <= |items| && final == Scan(items, n).kept
      && (n < |items| ==> |final| == Cap(maxCount))
      && (n > 0 ==> |Scan(items, n - 1).kept| < Cap(maxCount))
  }

  /** The franchise dedupe loop over the ranked candidates: it keeps what the
      greedy scan keeps, and stops at the first point where the list is full
      (`examined` is how far it got; `picked` holds the kept positions). */
  method FranchiseDedupe(items: seq<Scored>, maxCount: int) returns (final: seq<Scored>, ghost picked: seq<nat>, ghost examined: nat)
    ensures examined <= |items| && Scan(items, examined).kept == final && Scan(items, examined).at == picked
    ensures |final| <= Cap(maxCount)
    ensures examined < |items| ==> |final| == Cap(maxCount)
    ensures examined > 0 ==> |Scan(items, examined - 1).kept| < Cap(maxCount)
  {
    final, picked := [], [];
    var selected: set<int> := {};
    examined := 0;
    var i := 0;
    while i < |items|
      invariant 0 <= i <= |items| && examined == i
      invariant Scan(items, i) == Scanned(final, picked, selected)
      invariant |final| < Cap(maxCount)
      invariant i > 0 ==> |Scan(items, i - 1).kept| < Cap(maxCount)
    {
      var m := items[i].media;
      if m.id in selected {
        i := i + 1;
        examined := i;
        continue;
      }
      var related := RelatedIds(m);
      if TouchesClaimed(m.relations, selected) {
        i := i + 1;
        examined := i;
        continue;
      }
      final := final + [items[i]];
      picked := picked + [i];
      selected := selected + {m.id} + related;
      if |final| >= maxCount {
        examined := i + 1;
        break;
      }
      i := i + 1;
      examined := i;
    }
  }

  /** Kept items never come from one franchise: no two share an id, and
      neither is related to the other. */
  lemma DisjointFootprints(final: seq<Scored>)
    requires FootprintsDisjoint(final)
    ensures forall j, k :: 0 <= j < |final| && 0 <= k < |final| && j != k ==>
      && final[j].media.id != final[k].media.id
      && final[j].media.id !in RelatedIds(final[k].media)
  {
    forall j, k | 0 <= j < |final| && 0 <= k < |final| && j != k
      ensures final[j].media.id != final[k].media.id && final[j].media.id !in RelatedIds(final[k].media)
    {
      var a, b := final[j].media, final[k].media;
      assert a.id in Footprint(a);
      if j < k {
        assert Footprint(a) !! Footprint(b);
      } else {
        assert Footprint(b) !! Footprint(a);
      }
    }
  }

  /** Keeping items in their order of appearance keeps them ranked. */
  lemma PickedStaysSorted(items: seq<Scored>, final: seq<Scored>, picked: seq<nat>)
    requires SortedDesc(items, Combined)
    requires |picked| == |final|
    requires forall k :: 0 <= k < |picked| ==> picked[k] < |items| && final[k] == items[picked[k]]
    requires forall j, k :: 0 <= j < k < |picked| ==> picked[j] < picked[k]
    ensures SortedDesc(final, Combined)
  {
    forall j, k | 0 <= j < k < |final| ensures Combined(final[j]) >= Combined(final[k]) {
      assert Combined(items[picked[j]]) >= Combined(items[picked[k]]);
    }
  }

  // ---------------------------------------------------------------- the whole stage

  /** The filter, the sort and the franchise dedupe in sequence: the result
      is the greedy dedupe of the ranked, filtered candidates. So it holds
      only scored candidates that pass the filter, best first, at most
      `Cap(maxCount)` of them and never two from one franchise; the best
      candidate that passes the filter always leads; and every other one
      that passes is missing only because it shares an id with a kept item
      ranked at least as high, or because the list is full of items ranked
      at least as high. */
  method RankAndDedupe(scored: seq<Scored>, watched: set<int>, maxCount: int) returns (final: seq<Scored>)
    ensures forall i :: 0 <= i < |final| ==> final[i] in scored && Keep(final[i], watched)
    ensures SortedDesc(final, Combined)
    ensures |final| <= Cap(maxCount)
    ensures FootprintsDisjoint(final)
    ensures forall s :: s in scored && Keep(s, watched) ==> final != [] && final[0].combined >= s.combined
    ensures forall s :: s in scored && Keep(s, watched) && s !in final ==>
      || (exists k :: 0 <= k < |final| && final[k].combined >= s.combined && Footprint(s.media) * Footprint(final[k].media) != {})
      || (|final| == Cap(maxCount) && forall k :: 0 <= k < |final| ==> final[k].combined >= s.combined)
    ensures Deduped(RankByCombined(FilterCandidates(scored, watched)), final, maxCount)
  {
    var filtered := FilterCandidates(scored, watched);
    var ranked := RankByCombined(filtered);
    ghost var picked: seq<nat>, examined: nat;
    final, picked, examined := FranchiseDedupe(ranked, maxCount);
    assert Deduped(ranked, final, maxCount) by {
      assert final == Scan(ranked, examined).kept;
    }
    DedupeKeeps(scored, watched, maxCount, final, picked, examined);
    DedupeOmits(scored, watched, maxCount, final, picked, examined);
  }

  /** The dedupe loop has stopped on the ranking of the passing candidates
      after `examined` items, keeping `final` at the positions `picked`. */
  ghost predicate StoppedAt(scored: seq<Scored>, watched: set<int>, maxCount: int,
                            final: seq<Scored>, picked: seq<nat>, examined: nat) {
    var ranked := RankByCombined(FilterCandidates(scored, watched));
    && examined <= |ranked| && Scan(ranked, examined).kept == final && Scan(ranked, examined).at == picked
    && |final| <= Cap(maxCount)
    && (examined < |ranked| ==> |final| == Cap(maxCount))
  }

  /** What the dedupe keeps: passing candidates, best first, from distinct
      franchises, led by the best passing candidate. */
  lemma DedupeKeeps(scored: seq<Scored>, watched: set<int>, maxCount: int,
                    final: seq<Scored>, picked: seq<nat>, examined: nat)
    requires StoppedAt(scored, watched, maxCount, final, picked, examined)
    ensures forall i :: 0 <= i < |final| ==> final[i] in scored && Keep(final[i], watched)
    ensures SortedDesc(final, Combined)
    ensures FootprintsDisjoint(final)
    ensures forall s :: s in scored && Keep(s, watched) ==> final != [] && final[0].combined >= s.combined
  {
    var filtered := FilterCandidates(scored, watched);
    var ranked := RankByCombined(filtered);
    DedupeProperties(ranked, examined, maxCount);
    PickedStaysSorted(ranked, final, picked);
    forall i | 0 <= i < |final| ensures final[i] in scored && Keep(final[i], watched) {
      assert final[i] == ranked[picked[i]];
      assert final[i] in multiset(filtered);
    }
    forall s | s in scored && Keep(s, watched) ensures final != [] && final[0].combined >= s.combined {
      RankedFirstIsBest(filtered, s);
    }
  }

  /** Why a passing candidate is missing from the dedupe's result. */
  lemma DedupeOmits(scored: seq<Scored>, watched: set<int>, maxCount: int,
                    final: seq<Scored>, picked: seq<nat>, examined: nat)
    requires StoppedAt(scored, watched, maxCount, final, picked, examined)
    ensures forall s :: s in scored && Keep(s, watched) && s !in final ==>
      || (exists k :: 0 <= k < |final| && final[k].combined >= s.combined && Footprint(s.media) * Footprint(final[k].media) != {})
      || (|final| == Cap(maxCount) && forall k :: 0 <= k < |final| ==> final[k].combined >= s.combined)
  {
    var filtered := FilterCandidates(scored, watched);
    var ranked := RankByCombined(filtered);
    DedupeProperties(ranked, examined, maxCount);
    forall s | s in scored && Keep(s, watched) && s !in final
      ensures || (exists k :: 0 <= k < |final| && final[k].combined >= s.combined && Footprint(s.media) * Footprint(final[k].media) != {})
              || (|final| == Cap(maxCount) && forall k :: 0 <= k < |final| ==> final[k].combined >= s.combined)
    {
      OutOfFinal(ranked, filtered, final, picked, examined, maxCount, s);
    }
  }

  /** A ranked candidate that did not make the list was either shadowed by
      a kept item ranked at least as high, or came after the list was full
      of items ranked at least as high. */
  lemma OutOfFinal(ranked: seq<Scored>, filtered: seq<Scored>, final: seq<Scored>, picked: seq<nat>, examined: nat, maxCount: int, s: Scored)
    requires multiset(ranked) == multiset(filtered) && s in filtered && s !in final
    requires SortedDesc(ranked, Combined)
    requires examined <= |ranked| && Scan(ranked, examined).kept == final && Scan(ranked, examined).at == picked
    requires AtPositions(ranked, Scan(ranked, examined), examined)
    requires forall i :: 0 <= i < |ranked| && i !in picked ==>
      || Shadowed(ranked[i].media, final, picked, i)
      || (examined <= i && |final| == Cap(maxCount))
    ensures || (exists k :: 0 <= k < |final| && final[k].combined >= s.combined && Footprint(s.media) * Footprint(final[k].media) != {})
            || (|final| == Cap(maxCount) && forall k :: 0 <= k < |final| ==> final[k].combined >= s.combined)
  {
    assert s in multiset(ranked);
    var i :| 0 <= i < |ranked| && ranked[i] == s;
    assert i !in picked;
    if Shadowed(ranked[i].media, final, picked, i) {
      var k :| 0 <= k < |final| && k < |picked| && picked[k] < i && Footprint(s.media) * Footprint(final[k].media) != {};
      assert Combined(ranked[picked[k]]) >= Combined(ranked[i]);
    } else {
      forall k | 0 <= k < |final| ensures final[k].combined >= s.combined {
        assert Combined(ranked[picked[k]]) >= Combined(ranked[i]);
      }
    }
  }
}
