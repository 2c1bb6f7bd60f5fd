/**
 * The counting and the divisions of `UserCF.evaluate`: hits, recommended
 * and test items are counted over the train users, then precision, recall
 * and coverage are three ratios. Python raises ZeroDivisionError when a
 * denominator is zero; here that is a Failure result.
 */
module Evaluating {
  import opened Loading
  import opened Ranking

  datatype Result<T> = Success(value: T) | Failure(error: string)

  /** What `evaluate` returns. */
  datatype Metrics = Metrics(precision: real, recall: real, coverage: real)

  /** The counters of `evaluate` once its loop is over. */
  datatype Tally = Tally(hit: nat, recCount: nat, testCount: nat, recommended: set<string>)

  /** `x / (1.0 * y)` */
  function Ratio(x: nat, y: nat): (r: real)
    requires y > 0
    ensures 0.0 <= r
    ensures x <= y ==> r <= 1.0
    ensures r * (y as real) == x as real
  {
    x as real / y as real
  }

  /**
   * The three ratios of `evaluate`; the first zero denominator among
   * rec_count, test_count and movie_count (in that order) raises.
   */
  function Scores(t: Tally, movieCount: nat): Result<Metrics> {
    if t.recCount == 0 || t.testCount == 0 || movieCount == 0 then Failure("float division by zero")
    else Success(Metrics(Ratio(t.hit, t.recCount), Ratio(t.hit, t.testCount), Ratio(|t.recommended|, movieCount)))
  }

  /**
   * The metrics are defined exactly when no denominator is zero, and with
   * at most as many hits as recommendations and as test items, precision
   * and recall lie in [0, 1]; coverage does when no more distinct items
   * were recommended than `movieCount`.
   */
  lemma ScoresBounds(t: Tally, movieCount: nat)
    requires t.hit <= t.recCount && t.hit <= t.testCount
    ensures Scores(t, movieCount).Failure? <==> t.recCount == 0 || t.testCount == 0 || movieCount == 0
    ensures Scores(t, movieCount).Success? ==>
      var m := Scores(t, movieCount).value;
      0.0 <= m.precision <= 1.0 && 0.0 <= m.recall <= 1.0 && 0.0 <= m.coverage
      && (|t.recommended| <= movieCount ==> m.coverage <= 1.0)
  {
  }

  /** The test pairs of the users in `users`. */
  function TestPairs(users: set<string>, test: Partition): set<(string, string)> {
    set u, m | u in users && u in test && m in test[u] :: (u, m)
  }

  /** `len(test_set.get(u, {}))` */
  function TestSize(test: Partition, u: string): nat {
    if u in test then |test[u]| else 0
  }

  /** The pairs of one user's row are as many as the row's items. */
  lemma {:induction false} RowPairs(u: string, items: set<string>)
    ensures |set m | m in items :: (u, m)| == |items|
    decreases |items|
  {
    if items != {} {
      var x :| x in items;
      RowPairs(u, items - {x});
      var rest := set m | m in items - {x} :: (u, m);
      assert (set m | m in items :: (u, m)) == rest + {(u, x)};
      assert (u, x) !in rest;
    }
  }

  /** The test pairs of one user. */
  function UserPairs(test: Partition, u: string): set<(string, string)> {
    if u in test then set m | m in test[u].Keys :: (u, m) else {}
  }

  lemma TestPairsSplit(users: set<string>, test: Partition, u: string)
    requires u !in users
    ensures TestPairs(users + {u}, test) == TestPairs(users, test) + UserPairs(test, u)
    ensures TestPairs(users, test) * UserPairs(test, u) == {}
  {
  }

  /** Counting one more user adds that user's test items. */
  lemma TestPairsStep(users: set<string>, test: Partition, u: string)
    requires u !in users
    ensures |TestPairs(users + {u}, test)| == |TestPairs(users, test)| + TestSize(test, u)
  {
    TestPairsSplit(users, test, u);
    if u in test {
      RowPairs(u, test[u].Keys);
    }
  }

  /** When every test user is a train user, test_count counts every test pair. */
  lemma TestPairsAll(users: set<string>, test: Partition)
    requires test.Keys <= users
    ensures TestPairs(users, test) == Pairs(test)
  {
  }

  /** How many entries of `recs` have their key in `test`. */
  function HitsIn(recs: seq<(string, real)>, test: set<string>): nat {
    if recs == [] then 0
    else HitsIn(recs[..|recs| - 1], test) + (if recs[|recs| - 1].0 in test then 1 else 0)
  }

  lemma PrefixStep(recs: seq<(string, real)>, test: set<string>, j: nat)
    requires j < |recs|
    ensures KeysOf(recs[..j + 1]) == KeysOf(recs[..j]) + {recs[j].0}
    ensures HitsIn(recs[..j + 1], test) == HitsIn(recs[..j], test) + (if recs[j].0 in test then 1 else 0)
  {
    assert recs[..j + 1] == recs[..j] + [recs[j]];
    assert recs[..j + 1][..j] == recs[..j];
    KeysOfAppend(recs[..j], recs[j]);
  }

  /**
   * The inner loop of `evaluate` for one user: how many recommended items
   * are among the user's test items, and which items were recommended.
   */
  method CountHits(recs: seq<(string, real)>, test: map<string, real>) returns (hit: nat, shown: set<string>)
    ensures hit == HitsIn(recs, test.Keys)
    ensures shown == KeysOf(recs)
  {
    hit := 0;
    shown := {};
    var j := 0;
    while j < |recs|
      invariant 0 <= j <= |recs|
      invariant shown == KeysOf(recs[..j])
      invariant hit == HitsIn(recs[..j], test.Keys)
    {
      var movie := recs[j].0;
      PrefixStep(recs, test.Keys, j);
      if movie in test {
        hit := hit + 1;
      }
      shown := shown + {movie};
      j := j + 1;
    }
    assert recs[..|recs|] == recs;
  }

  /**
   * Without repeated items, the hits are the recommended items that are
   * test items, so there are no more of them than recommendations or test items.
   */
  lemma {:induction false} HitsCount(recs: seq<(string, real)>, test: set<string>)
    requires Distinct(recs)
    ensures HitsIn(recs, test) == |KeysOf(recs) * test|
    ensures HitsIn(recs, test) <= |recs| && HitsIn(recs, test) <= |test|
  {
    if recs != [] {
      var n := |recs| - 1;
      var init := recs[..n];
      assert Distinct(init);
      HitsCount(init, test);
      PrefixStep(recs, test, n);
      assert recs[..n + 1] == recs;
      forall i | 0 <= i < n ensures init[i].0 != recs[n].0 {
        assert init[i] == recs[i];
      }
      HitStep(KeysOf(init), test, recs[n].0);
    }
    IntersectionSmaller(KeysOf(recs), test);
  }

  lemma HitStep(shown: set<string>, test: set<string>, movie: string)
    requires movie !in shown
    ensures |(shown + {movie}) * test| == |shown * test| + (if movie in test then 1 else 0)
  {
    if movie in test {
      assert (shown + {movie}) * test == shown * test + {movie};
    } else {
      assert (shown + {movie}) * test == shown * test;
    }
  }

  lemma IntersectionSmaller(a: set<string>, b: set<string>)
    ensures |a * b| <= |b|
  {
    assert b == a * b + (b - a * b);
  }

  // ---------------------------------------------------------------------
  // The counters over all users

  /** The sum of `f` over a set of users, in no particular order. */
  ghost function Total(users: set<string>, f: string -> nat): nat {
    if users == {} then 0
    else
      var u :| u in users;
      f(u) + Total(users - {u}, f)
  }

  /** The sum does not depend on which user is taken out first. */
  lemma {:induction false} TotalRemove(users: set<string>, f: string -> nat, u: string)
    requires u in users
    ensures Total(users, f) == f(u) + Total(users - {u}, f)
    decreases |users|
  {
    var x :| x in users && Total(users, f) == f(x) + Total(users - {x}, f);
    if x != u {
      TotalRemove(users - {x}, f, u);
      TotalRemove(users - {u}, f, x);
      assert users - {x} - {u} == users - {u} - {x};
    }
  }

  /** Sums of functions that agree on the users are equal. */
  lemma {:induction false} TotalAgree(users: set<string>, f: string -> nat, g: string -> nat)
    requires forall u :: u in users ==> f(u) == g(u)
    ensures Total(users, f) == Total(users, g)
    decreases |users|
  {
    if users != {} {
      var u :| u in users;
      TotalRemove(users, f, u);
      TotalRemove(users, g, u);
      TotalAgree(users - {u}, f, g);
    }
  }

  /** A sum of smaller terms is smaller. */
  lemma {:induction false} TotalBelow(users: set<string>, f: string -> nat, g: string -> nat)
    requires forall u :: u in users ==> f(u) <= g(u)
    ensures Total(users, f) <= Total(users, g)
    decreases |users|
  {
    if users != {} {
      var u :| u in users;
      TotalRemove(users, f, u);
      TotalRemove(users, g, u);
      TotalBelow(users - {u}, f, g);
    }
  }

  /** A sum of terms at most `c` is at most `c` times the number of users. */
  lemma {:induction false} TotalBounded(users: set<string>, f: string -> nat, c: nat)
    requires forall u :: u in users ==> f(u) <= c
    ensures Total(users, f) <= c * |users|
    decreases |users|
  {
    if users != {} {
      var u :| u in users;
      TotalRemove(users, f, u);
      TotalBounded(users - {u}, f, c);
      MulStep(c, |users - {u}|);
    }
  }

  lemma MulStep(c: nat, k: nat)
    ensures c * (k + 1) == c * k + c
  {
  }

  /** The recommendations of `u`, none for a user without an entry. */
  function RecsOf(recsOf: map<string, seq<(string, real)>>, u: string): seq<(string, real)> {
    if u in recsOf then recsOf[u] else []
  }

  /** `test_set.get(u, {})`, as a set of items. */
  function TestItems(test: Partition, u: string): set<string> {
    if u in test then test[u].Keys else {}
  }

  /** Per user: how many of its recommendations are test items. */
  function HitsOf(recsOf: map<string, seq<(string, real)>>, test: Partition): string -> nat {
    u => HitsIn(RecsOf(recsOf, u), TestItems(test, u))
  }

  /** Per user: `len(rec_movies)`. */
  function CountOf(recsOf: map<string, seq<(string, real)>>): string -> nat {
    u => |RecsOf(recsOf, u)|
  }

  /** Per user: `len(test_movies)`. */
  function TestSizeOf(test: Partition): string -> nat {
    u => TestSize(test, u)
  }

  /** Every item recommended to one of `users`. */
  function Recommended(recsOf: map<string, seq<(string, real)>>, users: set<string>): set<string> {
    set u, i | u in users && u in recsOf && 0 <= i < |recsOf[u]| :: recsOf[u][i].0
  }

  /**
   * The counters `evaluate` holds once the users of `users` have had their
   * turn, `recsOf[u]` being what `recommend(u)` returned.
   */
  ghost function Tallied(recsOf: map<string, seq<(string, real)>>, users: set<string>, test: Partition): Tally {
    Tally(Total(users, HitsOf(recsOf, test)), Total(users, CountOf(recsOf)), Total(users, TestSizeOf(test)), Recommended(recsOf, users))
  }

  /** One more user adds its test items to test_count. */
  lemma TestStep(done: set<string>, test: Partition, u: string)
    requires u !in done
    ensures Total(done + {u}, TestSizeOf(test)) == Total(done, TestSizeOf(test)) + TestSize(test, u)
  {
    TotalRemove(done + {u}, TestSizeOf(test), u);
    assert (done + {u}) - {u} == done;
  }

  /** One more user adds its hits to the hit count. */
  lemma HitsStep(recsOf: map<string, seq<(string, real)>>, done: set<string>, test: Partition, u: string, recs: seq<(string, real)>)
    requires u !in done && u !in recsOf
    ensures Total(done + {u}, HitsOf(recsOf[u := recs], test)) == Total(done, HitsOf(recsOf, test)) + HitsIn(recs, TestItems(test, u))
  {
    var next := recsOf[u := recs];
    TotalRemove(done + {u}, HitsOf(next, test), u);
    assert (done + {u}) - {u} == done;
    forall v | v in done ensures HitsOf(next, test)(v) == HitsOf(recsOf, test)(v) {
      assert RecsOf(next, v) == RecsOf(recsOf, v);
    }
    TotalAgree(done, HitsOf(next, test), HitsOf(recsOf, test));
  }

  /** One more user adds its recommendations to rec_count. */
  lemma CountStep(recsOf: map<string, seq<(string, real)>>, done: set<string>, u: string, recs: seq<(string, real)>)
    requires u !in done && u !in recsOf
    ensures Total(done + {u}, CountOf(recsOf[u := recs])) == Total(done, CountOf(recsOf)) + |recs|
  {
    var next := recsOf[u := recs];
    TotalRemove(done + {u}, CountOf(next), u);
    assert (done + {u}) - {u} == done;
    forall v | v in done ensures CountOf(next)(v) == CountOf(recsOf)(v) {
      assert RecsOf(next, v) == RecsOf(recsOf, v);
    }
    TotalAgree(done, CountOf(next), CountOf(recsOf));
  }

  /** One more user adds its recommended items to all_rec_movies. */
  lemma RecommendedStep(recsOf: map<string, seq<(string, real)>>, done: set<string>, u: string, recs: seq<(string, real)>)
    requires u !in done
    ensures Recommended(recsOf[u := recs], done + {u}) == Recommended(recsOf, done) + KeysOf(recs)
  {
    var next := recsOf[u := recs];
    forall x | x in Recommended(next, done + {u}) ensures x in Recommended(recsOf, done) + KeysOf(recs) {
      var v, i :| v in done + {u} && v in next && 0 <= i < |next[v]| && next[v][i].0 == x;
      if v != u {
        assert recsOf[v][i].0 == x;
      }
    }
    forall x | x in KeysOf(recs) ensures x in Recommended(next, done + {u}) {
      var i :| 0 <= i < |recs| && recs[i].0 == x;
      assert next[u][i].0 == x;
    }
    forall x | x in Recommended(recsOf, done) ensures x in Recommended(next, done + {u}) {
      var v, i :| v in done && v in recsOf && 0 <= i < |recsOf[v]| && recsOf[v][i].0 == x;
      assert next[v][i].0 == x;
    }
  }

  // ---------------------------------------------------------------------
  // The loop of `evaluate`, one user at a time: `users` are the train users
  // still to visit, `keys` all of them.

  /** Moving one user from the pending set to the finished set. */
  lemma DoneStep(keys: set<string>, users: set<string>, user: string,
                 recsOf: map<string, seq<(string, real)>>, recs: seq<(string, real)>)
    requires user in users && users <= keys && recsOf.Keys == keys - users
    ensures keys - (users - {user}) == (keys - users) + {user}
    ensures recsOf[user := recs].Keys == keys - (users - {user})
  {
  }

  /** The hit count after one more user of the loop of `evaluate`. */
  lemma HitsAdvance(keys: set<string>, users: set<string>, user: string, recsOf: map<string, seq<(string, real)>>,
                    recs: seq<(string, real)>, test: Partition, hit0: nat, hit: nat)
    requires user in users && users <= keys && recsOf.Keys == keys - users
    requires hit0 == Total(keys - users, HitsOf(recsOf, test))
    requires hit == hit0 + HitsIn(recs, TestItems(test, user))
    ensures hit == Total(keys - (users - {user}), HitsOf(recsOf[user := recs], test))
  {
    HitsStep(recsOf, keys - users, test, user, recs);
    DoneStep(keys, users, user, recsOf, recs);
  }

  /** rec_count after one more user of the loop of `evaluate`. */
  lemma CountAdvance(keys: set<string>, users: set<string>, user: string, recsOf: map<string, seq<(string, real)>>,
                     recs: seq<(string, real)>, recCount0: nat, recCount: nat)
    requires user in users && users <= keys && recsOf.Keys == keys - users
    requires recCount0 == Total(keys - users, CountOf(recsOf))
    requires recCount == recCount0 + |recs|
    ensures recCount == Total(keys - (users - {user}), CountOf(recsOf[user := recs]))
  {
    CountStep(recsOf, keys - users, user, recs);
    DoneStep(keys, users, user, recsOf, recs);
  }

  /** test_count after one more user of the loop of `evaluate`. */
  lemma TestAdvance(keys: set<string>, users: set<string>, user: string, test: Partition, testCount0: nat, testCount: nat)
    requires user in users && users <= keys
    requires testCount0 == Total(keys - users, TestSizeOf(test))
    requires testCount == testCount0 + TestSize(test, user)
    ensures testCount == Total(keys - (users - {user}), TestSizeOf(test))
  {
    TestStep(keys - users, test, user);
    assert keys - (users - {user}) == (keys - users) + {user};
  }

  /** all_rec_movies after one more user of the loop of `evaluate`. */
  lemma RecommendedAdvance(keys: set<string>, users: set<string>, user: string, recsOf: map<string, seq<(string, real)>>,
                           recs: seq<(string, real)>, all0: set<string>, all: set<string>)
    requires user in users && users <= keys && recsOf.Keys == keys - users
    requires all0 == Recommended(recsOf, keys - users)
    requires all == all0 + KeysOf(recs)
    ensures all == Recommended(recsOf[user := recs], keys - (users - {user}))
  {
    RecommendedStep(recsOf, keys - users, user, recs);
    DoneStep(keys, users, user, recsOf, recs);
  }

  lemma DoneAll(keys: set<string>, users: set<string>)
    requires users == {}
    ensures keys - users == keys
  {
  }

  /** test_count counts the test pairs of the users. */
  lemma {:induction false} TestCount(users: set<string>, test: Partition)
    ensures Total(users, TestSizeOf(test)) == |TestPairs(users, test)|
    decreases |users|
  {
    if users != {} {
      var u :| u in users;
      TotalRemove(users, TestSizeOf(test), u);
      TestCount(users - {u}, test);
      TestPairsStep(users - {u}, test, u);
      assert (users - {u}) + {u} == users;
    } else {
      assert TestPairs(users, test) == {};
    }
  }

  /**
   * When no user's list repeats an item and none has more than `n`
   * entries, there are no more hits than recommendations or test items,
   * and no more recommendations than `n` per user.
   */
  lemma TallyBounds(recsOf: map<string, seq<(string, real)>>, users: set<string>, test: Partition, n: nat)
    requires forall u :: u in users ==> Distinct(RecsOf(recsOf, u)) && |RecsOf(recsOf, u)| <= n
    ensures var t := Tallied(recsOf, users, test);
      t.hit <= t.recCount && t.hit <= t.testCount && t.recCount <= n * |users|
      && t.testCount == |TestPairs(users, test)|
  {
    forall u | u in users ensures HitsOf(recsOf, test)(u) <= CountOf(recsOf)(u) && HitsOf(recsOf, test)(u) <= TestSizeOf(test)(u) {
      HitsCount(RecsOf(recsOf, u), TestItems(test, u));
    }
    TotalBelow(users, HitsOf(recsOf, test), CountOf(recsOf));
    TotalBelow(users, HitsOf(recsOf, test), TestSizeOf(test));
    TotalBounded(users, CountOf(recsOf), n);
    TestCount(users, test);
  }
}
