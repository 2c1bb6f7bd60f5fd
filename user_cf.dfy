/**
 * The `UserCF` recommender: a train and a test partition loaded from
 * `user:item,rating,timestamp;...` lines, a user-user similarity matrix
 * built from the train partition, top-N recommendations from the K most
 * similar users, and precision, recall and coverage over the train users.
 *
 * What the source takes from its environment is passed in: the lines of
 * the input file, the outcomes of the random draws, and the two numeric
 * functions `1 / log(1 + p)` (`weight`) and `sqrt` (`root`).
 */
module UserCf {
  import opened Text
  import opened Loading
  import opened Similarity
  import opened Ranking
  import opened Recommending
  import opened Evaluating

  class UserCF {
    /** K, the number of neighbours `recommend` uses. */
    const nSimUser: nat
    /** N, the number of items `recommend` returns. */
    const nRecMovie: nat
    /** The capacity: the loader stops once this many records are stored. */
    const userItemPairMaxNum: int

    var trainSet: Partition
    var testSet: Partition
    var userSimMatrix: Matrix
    var movieCount: nat

    /**
     * What every method keeps: the loader stores only the rating 1.0; the
     * matrix mentions only train users who rated something, so every
     * denominator of the normalisation is the root of a positive number;
     * and, however often the matrix was built, no user is in its own row,
     * every entry has its mirror with the same score, and every entry
     * joins two users who share a train item.
     */
    ghost predicate Valid()
      reads this
    {
      AllOnes(trainSet) && AllOnes(testSet) && OverTrain(userSimMatrix, trainSet)
      && NoSelf(userSimMatrix) && Symmetric(userSimMatrix) && Related(userSimMatrix, trainSet)
    }

    constructor (userItemPairCapacity: int := 100000)
      ensures nSimUser == 20 && nRecMovie == 10 && userItemPairMaxNum == userItemPairCapacity
      ensures trainSet == map[] && testSet == map[] && userSimMatrix == map[] && movieCount == 0
      ensures Valid()
    {
      nSimUser := 20;
      nRecMovie := 10;
      trainSet := map[];
      testSet := map[];
      userSimMatrix := map[];
      movieCount := 0;
      userItemPairMaxNum := userItemPairCapacity;
    }

    // -------------------------------------------------------------------
    // load_train_test_set

    /** `setdefault(user, {})[item] = 1.0` on the train partition or on the test partition. */
    method StoreRecord(user: string, item: string, toTrain: bool)
      modifies this
      ensures toTrain ==> trainSet == Store(old(trainSet), Record(user, item)) && testSet == old(testSet)
      ensures !toTrain ==> testSet == Store(old(testSet), Record(user, item)) && trainSet == old(trainSet)
      ensures userSimMatrix == old(userSimMatrix) && movieCount == old(movieCount)
    {
      if toTrain {
        if user !in trainSet {
          trainSet := trainSet[user := map[]];
        }
        trainSet := trainSet[user := trainSet[user][item := 1.0]];
      } else {
        if user !in testSet {
          testSet := testSet[user := map[]];
        }
        testSet := testSet[user := testSet[user][item := 1.0]];
      }
    }

    /** Stores the next record in the partition its draw picks. */
    method StoreDrawn(user: string, item: string, draws: seq<bool>, count: nat,
                      ghost t0: Partition, ghost s0: Partition, ghost read: seq<Record>)
      requires count == |read| < |draws|
      requires (trainSet, testSet) == Route(t0, s0, read, draws)
      modifies this
      ensures (trainSet, testSet) == Route(t0, s0, read + [Record(user, item)], draws)
      ensures userSimMatrix == old(userSimMatrix) && movieCount == old(movieCount)
    {
      RouteAppend(t0, s0, read, Record(user, item), draws);
      StoreRecord(user, item, draws[count]);
    }

    /**
     * One turn of the loop over a line's item entries: an entry with at
     * least three `,`-fields yields a record, which is stored, and the
     * capacity is checked.
     */
    method LoadEntry(user: string, entries: seq<string>, j: nat, draws: seq<bool>, count0: nat,
                     ghost t0: Partition, ghost s0: Partition, ghost read0: seq<Record>, ghost before: seq<Record>)
      returns (count: nat, reach: bool, ghost read: seq<Record>)
      requires j < |entries|
      requires count0 == |before| && before == read0 + EntriesRecords(user, entries[..j]) && count0 < Limit(userItemPairMaxNum)
      requires |read0| + |Take(EntriesRecords(user, entries), Limit(userItemPairMaxNum) - |read0|)| <= |draws|
      requires |before| <= |draws| && (trainSet, testSet) == Route(t0, s0, before, draws)
      modifies this
      ensures count == |read| && |read| <= |draws|
      ensures (trainSet, testSet) == Route(t0, s0, read, draws)
      ensures !reach ==> read == read0 + EntriesRecords(user, entries[..j + 1]) && count < Limit(userItemPairMaxNum)
      ensures reach ==> read == read0 + Take(EntriesRecords(user, entries), Limit(userItemPairMaxNum) - |read0|)
      ensures reach ==> |read0| + |EntriesRecords(user, entries)| >= Limit(userItemPairMaxNum)
      ensures userSimMatrix == old(userSimMatrix) && movieCount == old(movieCount)
    {
      ghost var limit := Limit(userItemPairMaxNum);
      count, reach, read := count0, false, before;
      var fields := Split(entries[j], ',');
      if |fields| >= 3 {
        var item := fields[0];
        EntryKept(user, entries, j, read0, limit);
        StoreDrawn(user, item, draws, count, t0, s0, read);
        count := count + 1;
        read := read + [Record(user, item)];
        if count >= userItemPairMaxNum {
          reach := true;
          EntryReaches(user, entries, j, read0, limit);
        }
      } else {
        EntrySkipped(user, entries, j, read0);
      }
    }

    /**
     * The loop over the item entries of one line, entered with `count0`
     * records stored (`read0`, from the partitions `t0` and `s0`): it
     * stores the entries' records until the capacity is reached, and says
     * whether it was.
     */
    method LoadEntries(user: string, entries: seq<string>, draws: seq<bool>, count0: nat,
                       ghost t0: Partition, ghost s0: Partition, ghost read0: seq<Record>)
      returns (count: nat, reach: bool, ghost read: seq<Record>)
      requires count0 == |read0| < Limit(userItemPairMaxNum)
      requires |read0| + |Take(EntriesRecords(user, entries), Limit(userItemPairMaxNum) - |read0|)| <= |draws|
      requires (trainSet, testSet) == Route(t0, s0, read0, draws)
      modifies this
      ensures read == read0 + Take(EntriesRecords(user, entries), Limit(userItemPairMaxNum) - |read0|)
      ensures reach <==> |read0| + |EntriesRecords(user, entries)| >= Limit(userItemPairMaxNum)
      ensures count == |read| && |read| <= |draws|
      ensures (trainSet, testSet) == Route(t0, s0, read, draws)
      ensures userSimMatrix == old(userSimMatrix) && movieCount == old(movieCount)
    {
      count := count0;
      reach := false;
      read := read0;
      assert entries[..0] == [];
      var j := 0;
      while j < |entries|
        invariant 0 <= j <= |entries|
        invariant count == |read| && |read| <= |draws|
        invariant read == read0 + EntriesRecords(user, entries[..j]) && count < Limit(userItemPairMaxNum)
        invariant (trainSet, testSet) == Route(t0, s0, read, draws)
        invariant userSimMatrix == old(userSimMatrix) && movieCount == old(movieCount)
      {
        count, reach, read := LoadEntry(user, entries, j, draws, count, t0, s0, read0, read);
        if reach {
          break;
        }
        j := j + 1;
      }
      if !reach {
        EntriesDone(user, entries, read0, Limit(userItemPairMaxNum));
      }
    }

    /**
     * Reads `lines` and stores the first Limit(capacity) records, each in
     * train or test as its draw says; `draws` holds one outcome of
     * `random.random() < pivot` per record stored.
     */
    method LoadTrainTestSet(lines: seq<string>, draws: seq<bool>)
      requires Valid()
      requires |Accepted(lines, userItemPairMaxNum)| <= |draws|
      modifies this
      ensures (trainSet, testSet) == Route(old(trainSet), old(testSet), Accepted(lines, userItemPairMaxNum), draws)
      ensures userSimMatrix == old(userSimMatrix) && movieCount == old(movieCount)
      ensures Valid()
    {
      ghost var t0, s0 := trainSet, testSet;
      ghost var limit := Limit(userItemPairMaxNum);
      var count: nat := 0;
      var reach := false;
      ghost var read: seq<Record> := [];
      var i := 0;
      while i < |lines|
        invariant 0 <= i <= |lines|
        invariant count == |read| && |read| <= |draws|
        invariant !reach ==> read == Records(lines[..i]) && count < limit
        invariant reach ==> read == Accepted(lines, userItemPairMaxNum)
        invariant (trainSet, testSet) == Route(t0, s0, read, draws)
        invariant userSimMatrix == old(userSimMatrix) && movieCount == old(movieCount)
      {
        if reach {
          break;
        }
        LineStep(lines, i);
        LineEntries(lines[i]);
        var data := Split(Strip(lines[i]), ':');
        if |data| >= 2 {
          var user := data[0];
          var entries := Split(data[1], ';');
          TakeSplit(read, EntriesRecords(user, entries), Records(lines), limit);
          count, reach, read := LoadEntries(user, entries, draws, count, t0, s0, read);
        }
        i := i + 1;
      }
      if !reach {
        assert lines[..i] == lines;
        TakeAll(Records(lines), limit);
      }
      RouteRatings(t0, s0, read, draws);
      RouteUsers(t0, s0, read, draws);
      OverTrainGrows(userSimMatrix, t0, trainSet);
      RelatedGrows(userSimMatrix, t0, trainSet);
    }

    // -------------------------------------------------------------------
    // calc_user_sim

    /**
     * Builds the popularity counts and the inverted index of the train
     * partition, sets `movieCount` to the number of train items, and
     * leaves in the matrix the accumulated and normalised similarities,
     * added to what the matrix held before.
     */
    method CalcUserSim(weight: nat -> real, root: nat -> real)
      requires Valid() && RootPositive(root)
      modifies this
      ensures trainSet == old(trainSet) && testSet == old(testSet)
      ensures movieCount == |Items(trainSet)|
      ensures userSimMatrix == Similarities(old(userSimMatrix), trainSet, weight, root)
      ensures Complete(userSimMatrix, trainSet)
      ensures Valid()
    {
      SimilaritiesKeep(userSimMatrix, trainSet, weight, root);
      var count, sim := Build(userSimMatrix, trainSet, weight, root);
      movieCount := count;
      userSimMatrix := sim;
    }

    // -------------------------------------------------------------------
    // recommend

    /** The best N unwatched items rated by the user's K most similar users. */
    method Recommend(user: string) returns (recs: seq<(string, real)>)
      requires Valid()
      ensures Recommendation(trainSet, userSimMatrix, user, nSimUser, nRecMovie, recs)
    {
      var k := nSimUser;
      var n := nRecMovie;
      if user !in trainSet {
        return [];
      }
      var watchedMovies := trainSet[user];
      if user !in userSimMatrix {
        return [];
      }
      var userSimVec := SelectTop(userSimMatrix[user], k);
      NeighboursInTrain(userSimMatrix, trainSet, user, k, userSimVec);
      var rank := AccumulateRank(userSimVec, trainSet, watchedMovies.Keys);
      recs := SelectTop(rank, n);
    }

    // -------------------------------------------------------------------
    // evaluate

    /**
     * One turn of the loop of `evaluate`: the user's recommendations are
     * counted against its test items and added to the counters.
     */
    method EvaluateUser(user: string, hit0: nat, recCount0: nat, testCount0: nat, allRecMovies0: set<string>)
      returns (hit: nat, recCount: nat, testCount: nat, allRecMovies: set<string>, recs: seq<(string, real)>)
      requires Valid()
      ensures Recommendation(trainSet, userSimMatrix, user, nSimUser, nRecMovie, recs)
      ensures hit == hit0 + HitsIn(recs, TestItems(testSet, user))
      ensures recCount == recCount0 + |recs|
      ensures testCount == testCount0 + TestSize(testSet, user)
      ensures allRecMovies == allRecMovies0 + KeysOf(recs)
    {
      var testMovies := if user in testSet then testSet[user] else map[];
      recs := Recommend(user);
      var userHit, shown := CountHits(recs, testMovies);
      assert testMovies.Keys == TestItems(testSet, user);
      hit := hit0 + userHit;
      allRecMovies := allRecMovies0 + shown;
      recCount := recCount0 + |recs|;
      testCount := testCount0 + |testMovies|;
    }

    /**
     * Precision, recall and coverage over the train users, `recsOf[u]`
     * being the list `recommend(u)` returned; a zero denominator is a
     * failure, as Python raises ZeroDivisionError.
     */
    method Evaluate() returns (result: Result<Metrics>, ghost recsOf: map<string, seq<(string, real)>>)
      requires Valid()
      ensures recsOf.Keys == trainSet.Keys && Recommendations(trainSet, userSimMatrix, nSimUser, nRecMovie, recsOf)
      ensures result == Scores(Tallied(recsOf, trainSet.Keys, testSet), movieCount)
    {
      var hit: nat, recCount: nat, testCount: nat := 0, 0, 0;
      var allRecMovies: set<string> := {};
      recsOf := map[];
      ghost var keys := trainSet.Keys;
      var users := trainSet.Keys;
      while users != {}
        invariant users <= keys
        invariant recsOf.Keys == keys - users
        invariant Recommendations(trainSet, userSimMatrix, nSimUser, nRecMovie, recsOf)
        invariant hit == Total(keys - users, HitsOf(recsOf, testSet))
        invariant recCount == Total(keys - users, CountOf(recsOf))
        invariant testCount == Total(keys - users, TestSizeOf(testSet))
        invariant allRecMovies == Recommended(recsOf, keys - users)
        decreases users
      {
        var user :| user in users;
        var hit', recCount', testCount', allRecMovies', recs := EvaluateUser(user, hit, recCount, testCount, allRecMovies);
        RecommendationsStep(trainSet, userSimMatrix, nSimUser, nRecMovie, recsOf, user, recs);
        HitsAdvance(keys, users, user, recsOf, recs, testSet, hit, hit');
        CountAdvance(keys, users, user, recsOf, recs, recCount, recCount');
        TestAdvance(keys, users, user, testSet, testCount, testCount');
        RecommendedAdvance(keys, users, user, recsOf, recs, allRecMovies, allRecMovies');
        DoneStep(keys, users, user, recsOf, recs);
        hit, recCount, testCount, allRecMovies := hit', recCount', testCount', allRecMovies';
        recsOf := recsOf[user := recs];
        users := users - {user};
      }
      DoneAll(keys, users);
      result := Scores(Tally(hit, recCount, testCount, allRecMovies), movieCount);
    }
  }

  /**
   * Whatever lists `recommend` returned, the counters of `evaluate` keep
   * their bounds: no more hits than recommendations or test items, at most
   * N recommendations per train user, test_count the number of test pairs
   * of train users, only train items recommended; precision and recall lie
   * in [0, 1], and so does coverage when `movieCount` is the number of
   * train items, as `calc_user_sim` leaves it.
   */
  lemma EvaluateBounds(train: Partition, test: Partition, sim: Matrix, k: nat, n: nat,
                       recsOf: map<string, seq<(string, real)>>, movieCount: nat)
    requires recsOf.Keys == train.Keys
    requires Recommendations(train, sim, k, n, recsOf)
    ensures var t := Tallied(recsOf, train.Keys, test);
      t.hit <= t.recCount && t.hit <= t.testCount && t.recCount <= n * |train|
      && t.testCount == |TestPairs(train.Keys, test)| && t.recommended <= Items(train)
    ensures var t := Tallied(recsOf, train.Keys, test);
      Scores(t, movieCount).Success? ==>
        var m := Scores(t, movieCount).value;
        0.0 <= m.precision <= 1.0 && 0.0 <= m.recall <= 1.0 && 0.0 <= m.coverage
        && (movieCount == |Items(train)| ==> m.coverage <= 1.0)
  {
    forall u | u in train.Keys ensures Distinct(RecsOf(recsOf, u)) && |RecsOf(recsOf, u)| <= n {
      RecommendationShape(train, sim, u, k, n, recsOf[u]);
    }
    TallyBounds(recsOf, train.Keys, test, n);
    var t := Tallied(recsOf, train.Keys, test);
    forall x | x in t.recommended ensures x in Items(train) {
      var u, i :| u in train.Keys && u in recsOf && 0 <= i < |recsOf[u]| && recsOf[u][i].0 == x;
      RecommendationShape(train, sim, u, k, n, recsOf[u]);
    }
    SubsetNoLarger(t.recommended, Items(train));
    ScoresBounds(t, movieCount);
  }

  lemma SubsetNoLarger(a: set<string>, b: set<string>)
    requires a <= b
    ensures |a| <= |b|
  {
    assert b == a + (b - a) && a * (b - a) == {};
  }
}
