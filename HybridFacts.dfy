/** What `getHybridRecommendations` promises: every movie either strategy
    proposes appears once, weighted 60/40 with both reasons when both
    propose it, and the best `limit` of them come back. */
module HybridFacts {
  import opened Types
  import opened StableSort
  import opened Scoring
  import opened Strategies
  import opened StrategyFacts

  // ---------------------------------------------------------------------
  // The id-keyed Map
  // ---------------------------------------------------------------------

  /** After `set`, the id set reads the new entry; other ids read as before. */
  lemma {:induction false} PutLookup(h: seq<Recommendation>, rec: Recommendation, id: string)
    ensures Lookup(Put(h, rec), id) == if id == rec.movie.id then Some(rec) else Lookup(h, id)
  {
    if h != [] && h[0].movie.id != rec.movie.id {
      PutLookup(h[1..], rec, id);
      assert Put(h, rec)[1..] == Put(h[1..], rec);
    }
  }

  lemma {:induction false} PutMembers(h: seq<Recommendation>, rec: Recommendation)
    ensures forall x :: x in Put(h, rec) ==> x == rec || x in h
  {
    if h != [] && h[0].movie.id != rec.movie.id {
      PutMembers(h[1..], rec);
    }
  }

  /** `set` never stores two values under one id. */
  lemma {:induction false} PutKeepsDistinct(h: seq<Recommendation>, rec: Recommendation)
    requires DistinctBy(h, RecId)
    ensures DistinctBy(Put(h, rec), RecId)
  {
    if h != [] {
      if h[0].movie.id == rec.movie.id {
        assert forall i :: 1 <= i < |h| ==> h[i].movie.id != rec.movie.id;
      } else {
        var tail := Put(h[1..], rec);
        PutKeepsDistinct(h[1..], rec);
        PutMembers(h[1..], rec);
        forall y | y in tail ensures y.movie.id != h[0].movie.id {
          if y != rec {
            var j :| 0 <= j < |h[1..]| && h[1..][j] == y;
            assert h[j + 1] == y;
          }
        }
      }
    }
  }

  /** `get` finds nothing exactly when no entry has the id, and otherwise an
      entry with that id. */
  lemma {:induction false} LookupFinds(h: seq<Recommendation>, id: string)
    ensures Lookup(h, id).None? <==> forall i :: 0 <= i < |h| ==> h[i].movie.id != id
    ensures Lookup(h, id).Some? ==> Lookup(h, id).value in h && Lookup(h, id).value.movie.id == id
  {
    if h != [] && h[0].movie.id != id {
      LookupFinds(h[1..], id);
      assert forall i :: 1 <= i < |h| ==> h[i] == h[1..][i - 1];
    }
  }

  /** In a list with distinct ids, looking up an entry's id finds it. */
  lemma {:induction false} LookupOfEntry(h: seq<Recommendation>, i: nat)
    requires DistinctBy(h, RecId) && i < |h|
    ensures Lookup(h, h[i].movie.id) == Some(h[i])
  {
    if i > 0 {
      LookupOfEntry(h[1..], i - 1);
    }
  }

  /** Looking up in a list extended at the end: the earlier entry wins. */
  lemma {:induction false} LookupAppend(h: seq<Recommendation>, rec: Recommendation, id: string)
    ensures Lookup(h + [rec], id)
            == if Lookup(h, id).Some? then Lookup(h, id) else if rec.movie.id == id then Some(rec) else None
  {
    if h != [] {
      LookupAppend(h[1..], rec, id);
      assert (h + [rec])[1..] == h[1..] + [rec];
    }
  }

  // ---------------------------------------------------------------------
  // The two forEach passes
  // ---------------------------------------------------------------------

  lemma {:induction false} SeedContentDistinct(content: seq<Recommendation>)
    ensures DistinctBy(SeedContent(content), RecId)
  {
    if content != [] {
      var n := |content| - 1;
      SeedContentDistinct(content[..n]);
      PutKeepsDistinct(SeedContent(content[..n]), FromContent(content[n]));
    }
  }

  /** After the first pass, each content recommendation is stored under its
      id with 60% of its score and the "Content match: " prefix. */
  lemma {:induction false} SeedContentLookup(content: seq<Recommendation>, id: string)
    requires DistinctBy(content, RecId)
    ensures Lookup(SeedContent(content), id) == Blend(Lookup(content, id), None)
  {
    if content != [] {
      var n := |content| - 1;
      var front, last := content[..n], content[n];
      assert content == front + [last];
      SeedContentLookup(front, id);
      PutLookup(SeedContent(front), FromContent(last), id);
      LookupAppend(front, last, id);
      if id == last.movie.id {
        LookupFinds(front, id);
      }
    }
  }

  lemma {:induction false} FoldCollaborativeDistinct(h: seq<Recommendation>, collab: seq<Recommendation>)
    requires DistinctBy(h, RecId)
    ensures DistinctBy(FoldCollaborative(h, collab), RecId)
  {
    if collab != [] {
      var n := |collab| - 1;
      var prev := FoldCollaborative(h, collab[..n]);
      FoldCollaborativeDistinct(h, collab[..n]);
      PutKeepsDistinct(prev, FoldIn(Lookup(prev, collab[n].movie.id), collab[n]));
    }
  }

  /** After the second pass, an id no collaborative recommendation has reads
      as before; one that has it reads the folded entry. */
  lemma {:induction false} FoldCollaborativeLookup(h: seq<Recommendation>, collab: seq<Recommendation>, id: string)
    requires DistinctBy(collab, RecId)
    ensures Lookup(FoldCollaborative(h, collab), id)
            == match Lookup(collab, id)
               case None => Lookup(h, id)
               case Some(k) => Some(FoldIn(Lookup(h, id), k))
  {
    if collab != [] {
      var n := |collab| - 1;
      var front, last := collab[..n], collab[n];
      var prev := FoldCollaborative(h, front);
      assert collab == front + [last];
      FoldCollaborativeLookup(h, front, id);
      PutLookup(prev, FoldIn(Lookup(prev, last.movie.id), last), id);
      LookupAppend(front, last, id);
      LookupFinds(prev, last.movie.id);
      if id == last.movie.id {
        LookupFinds(front, id);
        assert forall i :: 0 <= i < n ==> front[i] == collab[i];
        assert Lookup(front, id).None?;
      }
    }
  }

  /** Folding a collaborative recommendation into what the first pass
      stored gives the blended entry. */
  lemma FoldInBlend(oc: Option<Recommendation>, k: Recommendation)
    ensures Blend(oc, Some(k)).Some?
    ensures FoldIn(Blend(oc, None), k) == Blend(oc, Some(k)).value
  {
    if oc.Some? {
      var c := oc.value;
      assert ("Content match: " + c.reason) + " + " + k.reason
          == "Content match: " + c.reason + " + " + k.reason;
    }
  }

  /** The entry Merge keeps for an id combines that id's content and
      collaborative recommendations. */
  lemma MergeEntry(content: seq<Recommendation>, collab: seq<Recommendation>, id: string)
    requires DistinctBy(content, RecId) && DistinctBy(collab, RecId)
    ensures Lookup(Merge(content, collab), id) == Blend(Lookup(content, id), Lookup(collab, id))
  {
    var seeded := SeedContent(content);
    SeedContentLookup(content, id);
    FoldCollaborativeLookup(seeded, collab, id);
    assert Merge(content, collab) == FoldCollaborative(seeded, collab);
    match Lookup(collab, id) {
      case None =>
      case Some(k) => FoldInBlend(Lookup(content, id), k);
    }
  }

  /** Every entry of the first pass is about a movie of a content
      recommendation. */
  lemma {:induction false} SeedContentMovies(content: seq<Recommendation>)
    ensures forall x :: x in SeedContent(content) ==> exists y :: y in content && y.movie == x.movie
  {
    if content != [] {
      var n := |content| - 1;
      var front, last := content[..n], content[n];
      SeedContentMovies(front);
      PutMembers(SeedContent(front), FromContent(last));
      forall x | x in SeedContent(content) ensures exists y :: y in content && y.movie == x.movie {
        if x == FromContent(last) {
          assert last in content;
        } else {
          var y :| y in front && y.movie == x.movie;
          assert y in content;
        }
      }
    }
  }

  /** Every entry after the second pass is about a movie the Map already
      had or a movie of a collaborative recommendation. */
  lemma {:induction false} FoldCollaborativeMovies(h: seq<Recommendation>, collab: seq<Recommendation>)
    ensures forall x :: x in FoldCollaborative(h, collab) ==>
              (exists y :: y in h && y.movie == x.movie) || (exists y :: y in collab && y.movie == x.movie)
  {
    if collab != [] {
      var n := |collab| - 1;
      var front, last := collab[..n], collab[n];
      var prev := FoldCollaborative(h, front);
      FoldCollaborativeMovies(h, front);
      LookupFinds(prev, last.movie.id);
      var rec := FoldIn(Lookup(prev, last.movie.id), last);
      PutMembers(prev, rec);
      forall x | x in FoldCollaborative(h, collab)
        ensures (exists y :: y in h && y.movie == x.movie) || (exists y :: y in collab && y.movie == x.movie)
      {
        var z := if x == rec && Lookup(prev, last.movie.id).Some? then Lookup(prev, last.movie.id).value else x;
        if x == rec && Lookup(prev, last.movie.id).None? {
          assert last in collab;
        } else {
          assert z in prev && z.movie == x.movie;
          if !exists y :: y in h && y.movie == z.movie {
            var y :| y in front && y.movie == z.movie;
            assert y in collab;
          }
        }
      }
    }
  }

  /** Every merged entry is about a movie one of the two strategies proposed. */
  lemma MergeMovies(content: seq<Recommendation>, collab: seq<Recommendation>)
    ensures forall x :: x in Merge(content, collab) ==>
              (exists y :: y in content && y.movie == x.movie) || (exists y :: y in collab && y.movie == x.movie)
  {
    SeedContentMovies(content);
    FoldCollaborativeMovies(SeedContent(content), collab);
  }

  lemma MergeDistinct(content: seq<Recommendation>, collab: seq<Recommendation>)
    ensures DistinctBy(Merge(content, collab), RecId)
  {
    SeedContentDistinct(content);
    FoldCollaborativeDistinct(SeedContent(content), collab);
  }

  /** The merged list holds exactly the blended entries, one per id. */
  lemma MergeMembers(content: seq<Recommendation>, collab: seq<Recommendation>)
    requires DistinctBy(content, RecId) && DistinctBy(collab, RecId)
    ensures forall x :: x in Merge(content, collab) <==>
              Blend(Lookup(content, x.movie.id), Lookup(collab, x.movie.id)) == Some(x)
  {
    var m := Merge(content, collab);
    MergeDistinct(content, collab);
    forall x ensures x in m <==> Blend(Lookup(content, x.movie.id), Lookup(collab, x.movie.id)) == Some(x) {
      MergeEntry(content, collab, x.movie.id);
      if x in m {
        var i :| 0 <= i < |m| && m[i] == x;
        LookupOfEntry(m, i);
      }
      LookupFinds(m, x.movie.id);
    }
  }

  /** Every id either strategy proposes is in the merged list. */
  lemma MergeCoversBoth(content: seq<Recommendation>, collab: seq<Recommendation>, id: string)
    requires DistinctBy(content, RecId) && DistinctBy(collab, RecId)
    ensures Lookup(Merge(content, collab), id).Some? <==> Lookup(content, id).Some? || Lookup(collab, id).Some?
  {
    MergeEntry(content, collab, id);
  }

  // ---------------------------------------------------------------------
  // getHybridRecommendations
  // ---------------------------------------------------------------------

  /** The hybrid result is the best `limit` of the merged list: sorted by
      score, ties in Map insertion order, nothing left out scoring higher. */
  lemma HybridRanked(movies: seq<Movie>, ratings: seq<UserRating>, limit: nat)
    ensures var m := Merge(ContentBased(movies, ratings, limit * 2),
                           Collaborative(CatalogAfterContent(movies, ratings), ratings, limit * 2));
            var r := Hybrid(movies, ratings, limit);
            && |r| == (if limit < |m| then limit else |m|)
            && DistinctBy(r, RecId)
            && SortedDesc(r, Score)
            && (forall x :: x in r ==> x in m)
            && (forall x, y :: x in r && y in m && y !in r ==> y.score <= x.score)
            && (forall k :: WithKey(r, Score, k) <= WithKey(m, Score, k))
  {
    var m := Merge(ContentBased(movies, ratings, limit * 2),
                   Collaborative(CatalogAfterContent(movies, ratings), ratings, limit * 2));
    BestSpec(m, limit);
    MergeDistinct(ContentBased(movies, ratings, limit * 2),
                  Collaborative(CatalogAfterContent(movies, ratings), ratings, limit * 2));
    SortKeepsDistinct(m, Score, RecId);
  }

  /** Each hybrid entry blends the movie's content-based and collaborative
      recommendations (both computed with twice the limit). */
  lemma HybridEntries(movies: seq<Movie>, ratings: seq<UserRating>, limit: nat)
    requires DistinctBy(movies, MovieId)
    ensures var c := ContentBased(movies, ratings, limit * 2);
            var k := Collaborative(movies, ratings, limit * 2);
            forall x :: x in Hybrid(movies, ratings, limit) ==>
              Blend(Lookup(c, x.movie.id), Lookup(k, x.movie.id)) == Some(x)
  {
    var c := ContentBased(movies, ratings, limit * 2);
    var k := Collaborative(movies, ratings, limit * 2);
    CollaborativeAfterContent(movies, ratings, limit * 2);
    ContentBasedDistinct(movies, ratings, limit * 2);
    CollaborativeDistinct(movies, ratings, limit * 2);
    HybridRanked(movies, ratings, limit);
    MergeMembers(c, k);
  }

  // ---------------------------------------------------------------------
  // Insertion order of the Map
  // ---------------------------------------------------------------------

  /** The Map's keys in insertion order, as `Array.from(map.keys())`. */
  function Ids(h: seq<Recommendation>): (r: seq<string>)
    ensures |r| == |h|
    ensures forall i :: 0 <= i < |h| ==> r[i] == h[i].movie.id
  {
    seq(|h|, i requires 0 <= i < |h| => h[i].movie.id)
  }

  /** The recommendations of `k` whose id is not among `ids`, in order. */
  function Fresh(k: seq<Recommendation>, ids: seq<string>): seq<Recommendation> {
    if k == [] then []
    else
      var n := |k| - 1;
      Fresh(k[..n], ids) + (if k[n].movie.id in ids then [] else [k[n]])
  }

  lemma IdsCons(h: seq<Recommendation>)
    requires h != []
    ensures Ids(h) == [h[0].movie.id] + Ids(h[1..])
  {
  }

  /** `set` on a present id keeps the key order; on a new id it appends the
      id. */
  lemma {:induction false} PutIds(h: seq<Recommendation>, rec: Recommendation)
    ensures Ids(Put(h, rec)) == if Lookup(h, rec.movie.id).Some? then Ids(h) else Ids(h) + [rec.movie.id]
  {
    var r := Put(h, rec);
    if h == [] {
      assert Ids(r) == [rec.movie.id];
    } else {
      IdsCons(h);
      IdsCons(r);
      if h[0].movie.id != rec.movie.id {
        PutIds(h[1..], rec);
        assert r[0] == h[0] && r[1..] == Put(h[1..], rec);
      } else {
        assert r[0].movie.id == h[0].movie.id && r[1..] == h[1..];
      }
    }
  }

  /** After the first pass the keys are the content ids, in content order. */
  lemma {:induction false} SeedContentIds(content: seq<Recommendation>)
    requires DistinctBy(content, RecId)
    ensures Ids(SeedContent(content)) == Ids(content)
  {
    if content != [] {
      var n := |content| - 1;
      var front, last := content[..n], content[n];
      SeedContentIds(front);
      SeedContentLookup(front, last.movie.id);
      LookupFinds(front, last.movie.id);
      PutIds(SeedContent(front), FromContent(last));
      assert Ids(content) == Ids(front) + [last.movie.id];
    }
  }

  /** After the second pass the keys are the keys before it, then the ids
      of the collaborative recommendations not among them, in collaborative
      order. */
  lemma {:induction false} FoldCollaborativeIds(h: seq<Recommendation>, collab: seq<Recommendation>)
    requires DistinctBy(collab, RecId)
    ensures Ids(FoldCollaborative(h, collab)) == Ids(h) + Ids(Fresh(collab, Ids(h)))
  {
    if collab != [] {
      var n := |collab| - 1;
      var front, last := collab[..n], collab[n];
      var prev := FoldCollaborative(h, front);
      var id := last.movie.id;
      FoldCollaborativeIds(h, front);
      LookupFinds(prev, id);
      PutIds(prev, FoldIn(Lookup(prev, id), last));
      LookupIffIds(prev, id);
      LastIdIsNew(collab, Ids(h));
      FreshIdsSnoc(collab, Ids(h));
    }
  }

  lemma LookupIffIds(h: seq<Recommendation>, id: string)
    ensures Lookup(h, id).Some? <==> id in Ids(h)
  {
    LookupFinds(h, id);
    if id in Ids(h) {
      var i :| 0 <= i < |h| && Ids(h)[i] == id;
      assert h[i].movie.id == id;
    }
  }

  /** In a list with distinct ids, the last id is not among the fresh ids
      of the earlier entries. */
  lemma LastIdIsNew(k: seq<Recommendation>, ids: seq<string>)
    requires DistinctBy(k, RecId) && k != []
    ensures k[|k| - 1].movie.id !in Ids(Fresh(k[..|k| - 1], ids))
  {
    var n := |k| - 1;
    var f := Fresh(k[..n], ids);
    FreshWithin(k[..n], ids);
    forall i | 0 <= i < |f| ensures Ids(f)[i] != k[n].movie.id {
      assert f[i] in k[..n];
      var j :| 0 <= j < n && k[..n][j] == f[i];
      assert k[j] == f[i];
    }
  }

  lemma FreshIdsSnoc(k: seq<Recommendation>, ids: seq<string>)
    requires k != []
    ensures Ids(Fresh(k, ids)) == Ids(Fresh(k[..|k| - 1], ids))
                                  + (if k[|k| - 1].movie.id in ids then [] else [k[|k| - 1].movie.id])
  {
    var n := |k| - 1;
    var f := Fresh(k[..n], ids);
    if k[n].movie.id !in ids {
      assert Ids(f + [k[n]]) == Ids(f) + [k[n].movie.id];
    } else {
      assert f + [] == f;
    }
  }

  /** Fresh keeps only recommendations of `k`. */
  lemma {:induction false} FreshWithin(k: seq<Recommendation>, ids: seq<string>)
    ensures forall x :: x in Fresh(k, ids) ==> x in k
  {
    if k != [] {
      var n := |k| - 1;
      FreshWithin(k[..n], ids);
      assert forall x :: x in k[..n] ==> x in k;
    }
  }

  /** The hybrid Map's order: the content ids in content order, then the ids
      only the collaborative strategy proposed, in collaborative order.  Ties
      in the hybrid ranking follow this order. */
  lemma MergeIds(content: seq<Recommendation>, collab: seq<Recommendation>)
    requires DistinctBy(content, RecId) && DistinctBy(collab, RecId)
    ensures Ids(Merge(content, collab)) == Ids(content) + Ids(Fresh(collab, Ids(content)))
  {
    SeedContentIds(content);
    FoldCollaborativeIds(SeedContent(content), collab);
  }

  /** Neither half recommends a rated movie, so the hybrid never does. */
  lemma HybridExcludesRated(movies: seq<Movie>, ratings: seq<UserRating>, limit: nat)
    ensures forall x :: x in Hybrid(movies, ratings, limit) ==>
              x.movie in movies && x.movie.id !in RatedIds(ratings)
  {
    var c := ContentBased(movies, ratings, limit * 2);
    var k := Collaborative(movies, ratings, limit * 2);
    CollaborativeAfterContent(movies, ratings, limit * 2);
    HybridRanked(movies, ratings, limit);
    MergeMovies(c, k);
    ContentBasedExcludesRated(movies, ratings, limit * 2);
    CollaborativeExcludesRated(movies, ratings, limit * 2);
  }

  /** Asking the hybrid strategy again, on the catalog its first run left
      behind, gives the same recommendations. */
  lemma HybridAfterContent(movies: seq<Movie>, ratings: seq<UserRating>, limit: nat)
    ensures Hybrid(CatalogAfterContent(movies, ratings), ratings, limit) == Hybrid(movies, ratings, limit)
  {
    ContentAfterContent(movies, ratings, limit * 2);
    CatalogAfterContentIdempotent(movies, ratings);
  }
}
