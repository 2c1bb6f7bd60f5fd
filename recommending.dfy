/**
 * The scoring half of `UserCF.recommend`: every item a neighbour rated and
 * the user has not watched collects the neighbour's similarity times the
 * rating, and the best-scored items are recommended.
 */
module Recommending {
  import opened Loading
  import opened Similarity
  import opened Ranking

  /** Neighbours (with their similarities) who are all train users. */
  predicate InTrain(nbrs: seq<(string, real)>, train: Partition) {
    forall i :: 0 <= i < |nbrs| ==> nbrs[i].0 in train
  }

  /** The best neighbours of a user are train users when the matrix mentions only train users. */
  lemma NeighboursInTrain(sim: Matrix, train: Partition, user: string, k: nat, nbrs: seq<(string, real)>)
    requires OverTrain(sim, train) && user in sim && IsTop(sim[user], k, nbrs)
    ensures InTrain(nbrs, train)
  {
  }

  /** `wuv * rating`, the amount one neighbour adds to an item. */
  function Gain(w: real, rating: real): real {
    w * rating
  }

  /**
   * One neighbour's turn of the loop: `rank[m] += w * rating` for every item
   * `m` it rated with `rating` that is not in `watched`, from 0 for new items.
   */
  function AddNeighbour(rank: map<string, real>, rated: map<string, real>, watched: set<string>, w: real): map<string, real> {
    map m | m in rank.Keys + (rated.Keys - watched) :: Get(rank, m) + (if m in rated && m !in watched then Gain(w, rated[m]) else 0.0)
  }

  /** The `rank` dictionary once the neighbours `nbrs` have had their turn, in order. */
  function Rank(nbrs: seq<(string, real)>, train: Partition, watched: set<string>): map<string, real>
    requires InTrain(nbrs, train)
  {
    if nbrs == [] then map[]
    else
      var n := |nbrs| - 1;
      AddNeighbour(Rank(nbrs[..n], train, watched), train[nbrs[n].0], watched, nbrs[n].1)
  }

  // ---------------------------------------------------------------------
  // What the rank means, item by item

  /** Some neighbour rated `m`. */
  predicate RatedBySome(nbrs: seq<(string, real)>, train: Partition, m: string)
    requires InTrain(nbrs, train)
  {
    exists i :: 0 <= i < |nbrs| && m in train[nbrs[i].0]
  }

  /** The sum, over the neighbours who rated `m`, of similarity times rating. */
  function Score(nbrs: seq<(string, real)>, train: Partition, m: string): real
    requires InTrain(nbrs, train)
  {
    if nbrs == [] then 0.0
    else
      var n := |nbrs| - 1;
      var rated := train[nbrs[n].0];
      Score(nbrs[..n], train, m) + (if m in rated then Gain(nbrs[n].1, rated[m]) else 0.0)
  }

  /** The sum of the similarities of the neighbours who rated `m`. */
  function Support(nbrs: seq<(string, real)>, train: Partition, m: string): real
    requires InTrain(nbrs, train)
  {
    if nbrs == [] then 0.0
    else
      var n := |nbrs| - 1;
      Support(nbrs[..n], train, m) + (if m in train[nbrs[n].0] then nbrs[n].1 else 0.0)
  }

  lemma {:induction false} ScoreUnrated(nbrs: seq<(string, real)>, train: Partition, m: string)
    requires InTrain(nbrs, train) && !RatedBySome(nbrs, train, m)
    ensures Score(nbrs, train, m) == 0.0
  {
    if nbrs != [] {
      var n := |nbrs| - 1;
      assert !RatedBySome(nbrs[..n], train, m) by {
        forall i | 0 <= i < n ensures m !in train[nbrs[..n][i].0] {
          assert nbrs[..n][i] == nbrs[i];
        }
      }
      ScoreUnrated(nbrs[..n], train, m);
    }
  }

  /**
   * An item is ranked exactly when the user has not watched it and some
   * neighbour rated it, and its rank is its Score.
   */
  lemma {:induction false} RankMeaning(nbrs: seq<(string, real)>, train: Partition, watched: set<string>, m: string)
    requires InTrain(nbrs, train)
    ensures m in Rank(nbrs, train, watched) <==> m !in watched && RatedBySome(nbrs, train, m)
    ensures m in Rank(nbrs, train, watched) ==> Rank(nbrs, train, watched)[m] == Score(nbrs, train, m)
  {
    if nbrs != [] {
      var n := |nbrs| - 1;
      var init := nbrs[..n];
      assert InTrain(init, train);
      RankMeaning(init, train, watched, m);
      assert RatedBySome(nbrs, train, m) <==> RatedBySome(init, train, m) || m in train[nbrs[n].0] by {
        if RatedBySome(nbrs, train, m) {
          var i :| 0 <= i < |nbrs| && m in train[nbrs[i].0];
          if i < n {
            assert init[i] == nbrs[i];
          }
        }
        if RatedBySome(init, train, m) {
          var i :| 0 <= i < n && m in train[init[i].0];
          assert init[i] == nbrs[i];
        }
      }
      if m !in Rank(init, train, watched) && m !in watched {
        ScoreUnrated(init, train, m);
      }
    }
  }

  /** With every rating 1.0, as the loader stores them, an item's score is the summed similarity of its raters. */
  lemma {:induction false} ScoreIsSupport(nbrs: seq<(string, real)>, train: Partition, m: string)
    requires InTrain(nbrs, train) && AllOnes(train)
    ensures Score(nbrs, train, m) == Support(nbrs, train, m)
  {
    if nbrs != [] {
      var n := |nbrs| - 1;
      ScoreIsSupport(nbrs[..n], train, m);
    }
  }

  // ---------------------------------------------------------------------
  // The loops

  /** The items of `rated` the inner loop has reached. */
  function Reached(rated: map<string, real>, done: set<string>): map<string, real> {
    map m | m in rated && m in done :: rated[m]
  }

  lemma ReachedStep(rank: map<string, real>, rated: map<string, real>, watched: set<string>, w: real, done: set<string>, m: string)
    requires m in rated && m !in done
    ensures var before := AddNeighbour(rank, Reached(rated, done), watched, w);
      AddNeighbour(rank, Reached(rated, done + {m}), watched, w)
      == if m in watched then before else before[m := Get(before, m) + Gain(w, rated[m])]
  {
    assert Reached(rated, done + {m}) == Reached(rated, done)[m := rated[m]];
    AddNeighbourUpdate(rank, Reached(rated, done), watched, w, m, rated[m]);
  }

  /** One more rated item changes at most its own rank. */
  lemma AddNeighbourUpdate(rank: map<string, real>, rated: map<string, real>, watched: set<string>, w: real, m: string, r: real)
    requires m !in rated
    ensures var before := AddNeighbour(rank, rated, watched, w);
      AddNeighbour(rank, rated[m := r], watched, w)
      == if m in watched then before else before[m := Get(before, m) + Gain(w, r)]
  {
    var before := AddNeighbour(rank, rated, watched, w);
    var after := AddNeighbour(rank, rated[m := r], watched, w);
    var expected := if m in watched then before else before[m := Get(before, m) + Gain(w, r)];
    assert after.Keys == expected.Keys;
    forall x | x in after ensures after[x] == expected[x] {
      if x == m && m !in watched {
        assert Get(before, m) == Get(rank, m) + 0.0;
      }
    }
  }

  lemma ReachedEnds(rank: map<string, real>, rated: map<string, real>, watched: set<string>, w: real)
    ensures AddNeighbour(rank, Reached(rated, {}), watched, w) == rank
    ensures AddNeighbour(rank, Reached(rated, rated.Keys), watched, w) == AddNeighbour(rank, rated, watched, w)
  {
    assert Reached(rated, rated.Keys) == rated;
  }

  /** The inner loop over one neighbour's rated items. */
  method AddRated(rank: map<string, real>, rated: map<string, real>, watched: set<string>, w: real)
    returns (out: map<string, real>)
    ensures out == AddNeighbour(rank, rated, watched, w)
  {
    out := rank;
    var todo := rated.Keys;
    ReachedEnds(rank, rated, watched, w);
    while todo != {}
      invariant todo <= rated.Keys
      invariant out == AddNeighbour(rank, Reached(rated, rated.Keys - todo), watched, w)
      decreases todo
    {
      var m :| m in todo;
      ReachedStep(rank, rated, watched, w, rated.Keys - todo, m);
      assert rated.Keys - (todo - {m}) == (rated.Keys - todo) + {m};
      if m !in watched {
        var current := if m in out then out[m] else 0.0;
        out := out[m := current + Gain(w, rated[m])];
      }
      todo := todo - {m};
    }
    assert rated.Keys - todo == rated.Keys;
  }

  /** The outer loop over the chosen neighbours. */
  method AccumulateRank(nbrs: seq<(string, real)>, train: Partition, watched: set<string>)
    returns (rank: map<string, real>)
    requires InTrain(nbrs, train)
    ensures rank == Rank(nbrs, train, watched)
  {
    rank := map[];
    var i := 0;
    while i < |nbrs|
      invariant 0 <= i <= |nbrs|
      invariant InTrain(nbrs[..i], train)
      invariant rank == Rank(nbrs[..i], train, watched)
    {
      var v, w := nbrs[i].0, nbrs[i].1;
      rank := AddRated(rank, train[v], watched, w);
      assert nbrs[..i + 1][..i] == nbrs[..i];
      i := i + 1;
    }
    assert nbrs[..|nbrs|] == nbrs;
  }

  // ---------------------------------------------------------------------
  // What `recommend` returns

  /**
   * `recs` is a possible result of `recommend(user)` with K = `k` and
   * N = `n`: empty for a user outside the train partition or without a
   * row in the matrix; otherwise the best `n` items of the rank built from
   * the user's best `k` neighbours.
   */
  ghost predicate Recommendation(train: Partition, sim: Matrix, user: string, k: nat, n: nat, recs: seq<(string, real)>) {
    if user !in train || user !in sim then recs == []
    else exists nbrs :: IsTop(sim[user], k, nbrs) && InTrain(nbrs, train) && IsTop(Rank(nbrs, train, train[user].Keys), n, recs)
  }

  /**
   * At most `n` distinct items, best first, each rated by some train user
   * and none already watched by the user.
   */
  lemma RecommendationShape(train: Partition, sim: Matrix, user: string, k: nat, n: nat, recs: seq<(string, real)>)
    requires Recommendation(train, sim, user, k, n, recs)
    ensures |recs| <= n && Distinct(recs) && Descending(recs)
    ensures recs != [] ==> user in train
    ensures forall i :: 0 <= i < |recs| ==> recs[i].0 in Items(train) && recs[i].0 !in train[user]
  {
    if user in train && user in sim {
      var nbrs: seq<(string, real)> :| IsTop(sim[user], k, nbrs) && InTrain(nbrs, train) && IsTop(Rank(nbrs, train, train[user].Keys), n, recs);
      forall i | 0 <= i < |recs| ensures recs[i].0 in Items(train) && recs[i].0 !in train[user] {
        var m := recs[i].0;
        RankMeaning(nbrs, train, train[user].Keys, m);
        var j :| 0 <= j < |nbrs| && m in train[nbrs[j].0];
        assert m in ItemsAmong(train, train.Keys);
      }
    }
  }

  /** Every list in `recsOf` is a possible result of `recommend` for its user. */
  ghost predicate Recommendations(train: Partition, sim: Matrix, k: nat, n: nat, recsOf: map<string, seq<(string, real)>>) {
    forall u :: u in recsOf ==> Recommendation(train, sim, u, k, n, recsOf[u])
  }

  lemma RecommendationsStep(train: Partition, sim: Matrix, k: nat, n: nat, recsOf: map<string, seq<(string, real)>>,
                            user: string, recs: seq<(string, real)>)
    requires Recommendations(train, sim, k, n, recsOf) && Recommendation(train, sim, user, k, n, recs)
    ensures Recommendations(train, sim, k, n, recsOf[user := recs])
  {
  }
}
