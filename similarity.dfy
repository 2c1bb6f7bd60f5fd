/**
 * The similarity builder of `UserCF.calc_user_sim`: item popularity, the
 * item -> users inverted index, the accumulation of a popularity weight
 * into every ordered pair of distinct co-raters of an item, and the final
 * division of each score by a root of the product of the two users'
 * train-set sizes.
 *
 * The numerics are supplied: `weight(p)` stands for `1 / log(1 + p)` and
 * `root(n)` for `sqrt(n)`; nothing here depends on their values except that
 * `root` is positive on positive arguments.
 */
module Similarity {
  import opened Loading

  /** user -> user -> score: the shape of `user_sim_matrix`. */
  type Matrix = map<string, map<string, real>>

  /** item -> users who rated it: the shape of `movie_user`. */
  type Index = map<string, set<string>>

  // ---------------------------------------------------------------------
  // Popularity and the inverted index

  /** The items rated by the train users in `users`. */
  function ItemsAmong(train: Partition, users: set<string>): set<string> {
    set u, m | u in users && u in train && m in train[u] :: m
  }

  /** The train users in `users` who rated `m`. */
  function RatersAmong(train: Partition, users: set<string>, m: string): set<string> {
    set u | u in users && u in train && m in train[u]
  }

  /** The distinct items of the train partition. */
  function Items(train: Partition): set<string> {
    ItemsAmong(train, train.Keys)
  }

  /** The train users who rated `m`. */
  function Raters(train: Partition, m: string): set<string> {
    RatersAmong(train, train.Keys, m)
  }

  /** What the source's `movie_popular` holds once built. */
  function Popularity(train: Partition): map<string, nat> {
    map m | m in Items(train) :: |Raters(train, m)|
  }

  /** What the source's `movie_user` holds once built. */
  function InvertedIndex(train: Partition): Index {
    map m | m in Items(train) :: Raters(train, m)
  }

  /** The popularity counts over the train users in `users` only. */
  function PopularityAmong(train: Partition, users: set<string>): map<string, nat> {
    map m | m in ItemsAmong(train, users) :: |RatersAmong(train, users, m)|
  }

  /** The inverted index over the train users in `users` only. */
  function IndexAmong(train: Partition, users: set<string>): Index {
    map m | m in ItemsAmong(train, users) :: RatersAmong(train, users, m)
  }

  /** Taking one more user into account adds that user's items. */
  lemma ItemsStep(train: Partition, done: set<string>, u: string)
    requires u in train
    ensures ItemsAmong(train, done + {u}) == ItemsAmong(train, done) + train[u].Keys
  {
  }

  /** An item outside the index has no raters yet. */
  lemma RatersOutside(train: Partition, done: set<string>, m: string)
    ensures m !in ItemsAmong(train, done) ==> RatersAmong(train, done, m) == {}
  {
    if RatersAmong(train, done, m) != {} {
      var x :| x in RatersAmong(train, done, m);
      assert x in done && x in train && m in train[x];
    }
  }

  /** Taking one more user into account makes that user one more rater of each of its items. */
  lemma RatersStep(train: Partition, done: set<string>, u: string, m: string)
    requires u in train && u !in done
    ensures RatersAmong(train, done + {u}, m) == RatersAmong(train, done, m) + (if m in train[u] then {u} else {})
    ensures |RatersAmong(train, done + {u}, m)| == |RatersAmong(train, done, m)| + (if m in train[u] then 1 else 0)
  {
    assert u !in RatersAmong(train, done, m);
  }

  /** `movie_popular` after one more item count for each of `movies`, from 0 for new items. */
  function Counted(popular: map<string, nat>, movies: set<string>): map<string, nat> {
    map m | m in popular.Keys + movies :: (if m in popular then popular[m] else 0) + (if m in movies then 1 else 0)
  }

  lemma CountedStep(popular: map<string, nat>, seen: set<string>, m: string)
    requires m !in seen
    ensures var c := Counted(popular, seen);
      Counted(popular, seen + {m}) == c[m := (if m in c then c[m] else 0) + 1]
  {
  }

  /** Counting the items of one more user is one Counted step. */
  lemma PopularityStep(train: Partition, done: set<string>, u: string)
    requires u in train && u !in done
    ensures PopularityAmong(train, done + {u}) == Counted(PopularityAmong(train, done), train[u].Keys)
  {
    var lhs := PopularityAmong(train, done + {u});
    var rhs := Counted(PopularityAmong(train, done), train[u].Keys);
    ItemsStep(train, done, u);
    assert lhs.Keys == rhs.Keys;
    forall m | m in lhs ensures lhs[m] == rhs[m] {
      PopularityCellStep(train, done, u, m);
    }
  }

  lemma PopularityCellStep(train: Partition, done: set<string>, u: string, m: string)
    requires u in train && u !in done
    requires m in ItemsAmong(train, done + {u})
    ensures var c := Counted(PopularityAmong(train, done), train[u].Keys);
      m in c && PopularityAmong(train, done + {u})[m] == c[m]
  {
    ItemsStep(train, done, u);
    RatersStep(train, done, u, m);
    RatersOutside(train, done, m);
  }

  /** The inner loop of the popularity count: `movie_popular[m] += 1` for each item `m` of one user. */
  method CountItems(popular: map<string, nat>, movies: set<string>) returns (out: map<string, nat>)
    ensures out == Counted(popular, movies)
  {
    out := popular;
    var todo := movies;
    assert Counted(popular, {}) == popular;
    while todo != {}
      invariant todo <= movies
      invariant out == Counted(popular, movies - todo)
      decreases todo
    {
      var m :| m in todo;
      CountedStep(popular, movies - todo, m);
      assert movies - (todo - {m}) == (movies - todo) + {m};
      if m !in out {
        out := out[m := 0];
      }
      out := out[m := out[m] + 1];
      todo := todo - {m};
    }
  }

  /** The first loop of `calc_user_sim`: `movie_popular[m]` counts the train users who rated `m`. */
  method CountPopularity(train: Partition) returns (popular: map<string, nat>)
    ensures popular == Popularity(train)
  {
    popular := map[];
    var users := train.Keys;
    assert PopularityAmong(train, {}) == map[];
    while users != {}
      invariant users <= train.Keys
      invariant popular == PopularityAmong(train, train.Keys - users)
      decreases users
    {
      var u :| u in users;
      PopularityStep(train, train.Keys - users, u);
      assert train.Keys - (users - {u}) == (train.Keys - users) + {u};
      popular := CountItems(popular, train[u].Keys);
      users := users - {u};
    }
    assert train.Keys - users == train.Keys;
  }

  /** `movie_user` after `u` is added to the users of each of `movies`, from the empty set for new items. */
  function Joined(movieUser: Index, movies: set<string>, u: string): Index {
    map m | m in movieUser.Keys + movies :: (if m in movieUser then movieUser[m] else {}) + (if m in movies then {u} else {})
  }

  lemma JoinedStep(movieUser: Index, seen: set<string>, u: string, m: string)
    requires m !in seen
    ensures var j := Joined(movieUser, seen, u);
      Joined(movieUser, seen + {m}, u) == j[m := (if m in j then j[m] else {}) + {u}]
  {
    var j := Joined(movieUser, seen, u);
    var lhs := Joined(movieUser, seen + {m}, u);
    var rhs := j[m := (if m in j then j[m] else {}) + {u}];
    assert lhs.Keys == rhs.Keys;
    forall x | x in lhs ensures lhs[x] == rhs[x] {
      if x == m && m in movieUser {
        assert j[m] == movieUser[m] + {};
      }
    }
  }

  lemma JoinedNone(movieUser: Index, u: string)
    ensures Joined(movieUser, {}, u) == movieUser
  {
    var j := Joined(movieUser, {}, u);
    forall x | x in j ensures j[x] == movieUser[x] {
      assert j[x] == movieUser[x] + {};
    }
  }

  /** Indexing the items of one more user is one Joined step. */
  lemma IndexStep(train: Partition, done: set<string>, u: string)
    requires u in train && u !in done
    ensures IndexAmong(train, done + {u}) == Joined(IndexAmong(train, done), train[u].Keys, u)
  {
    var lhs := IndexAmong(train, done + {u});
    var rhs := Joined(IndexAmong(train, done), train[u].Keys, u);
    ItemsStep(train, done, u);
    assert lhs.Keys == rhs.Keys;
    forall m | m in lhs ensures lhs[m] == rhs[m] {
      IndexCellStep(train, done, u, m);
    }
  }

  lemma IndexCellStep(train: Partition, done: set<string>, u: string, m: string)
    requires u in train && u !in done
    requires m in ItemsAmong(train, done + {u})
    ensures var j := Joined(IndexAmong(train, done), train[u].Keys, u);
      m in j && IndexAmong(train, done + {u})[m] == j[m]
  {
    ItemsStep(train, done, u);
    RatersStep(train, done, u, m);
    RatersOutside(train, done, m);
  }

  /** The inner loop of the index build: `movie_user[m].add(u)` for each item `m` of user `u`. */
  method AddRater(movieUser: Index, movies: set<string>, u: string) returns (out: Index)
    ensures out == Joined(movieUser, movies, u)
  {
    out := movieUser;
    var todo := movies;
    JoinedNone(movieUser, u);
    while todo != {}
      invariant todo <= movies
      invariant out == Joined(movieUser, movies - todo, u)
      decreases todo
    {
      var m :| m in todo;
      JoinedStep(movieUser, movies - todo, u, m);
      assert movies - (todo - {m}) == (movies - todo) + {m};
      if m !in out {
        out := out[m := {}];
      }
      out := out[m := out[m] + {u}];
      todo := todo - {m};
    }
  }

  /** The second loop of `calc_user_sim`: `movie_user[m]` is the set of train users who rated `m`. */
  method BuildMovieUsers(train: Partition) returns (movieUser: Index)
    ensures movieUser == InvertedIndex(train)
  {
    movieUser := map[];
    var users := train.Keys;
    assert IndexAmong(train, {}) == map[];
    while users != {}
      invariant users <= train.Keys
      invariant movieUser == IndexAmong(train, train.Keys - users)
      decreases users
    {
      var u :| u in users;
      IndexStep(train, train.Keys - users, u);
      assert train.Keys - (users - {u}) == (train.Keys - users) + {u};
      movieUser := AddRater(movieUser, train[u].Keys, u);
      users := users - {u};
    }
    assert train.Keys - users == train.Keys;
  }

  // ---------------------------------------------------------------------
  // Sums of item weights

  /** `weight(movie_popular[m])`, or nothing for an item without a count. */
  function ItemWeight(popular: map<string, nat>, weight: nat -> real, m: string): real {
    if m in popular then weight(popular[m]) else 0.0
  }

  /** The sum of the weights of a set of items. */
  ghost function Weights(items: set<string>, popular: map<string, nat>, weight: nat -> real): real {
    if items == {} then 0.0
    else
      var m :| m in items;
      ItemWeight(popular, weight, m) + Weights(items - {m}, popular, weight)
  }

  /** The sum does not depend on which item is taken out first. */
  lemma WeightsRemove(items: set<string>, popular: map<string, nat>, weight: nat -> real, m: string)
    requires m in items
    ensures Weights(items, popular, weight) == ItemWeight(popular, weight, m) + Weights(items - {m}, popular, weight)
    decreases |items|
  {
    var x :| x in items && Weights(items, popular, weight)
      == ItemWeight(popular, weight, x) + Weights(items - {x}, popular, weight);
    if x != m {
      WeightsRemove(items - {x}, popular, weight, m);
      WeightsRemove(items - {m}, popular, weight, x);
      assert items - {x} - {m} == items - {m} - {x};
    }
  }

  // ---------------------------------------------------------------------
  // Accumulation: the triple loop of `calc_user_sim`

  /** The items both `u` and `v` rated, according to the index. */
  function CoItems(index: Index, u: string, v: string): set<string> {
    set m | m in index && u in index[m] && v in index[m]
  }

  /** Every user the index mentions. */
  function IndexUsers(index: Index): set<string> {
    set m, u | m in index && u in index[m] :: u
  }

  /** The users other than `u` who share an indexed item with `u`. */
  function Partners(index: Index, u: string): set<string> {
    set v | v in IndexUsers(index) && v != u && CoItems(index, u, v) != {}
  }

  /** The users who share an indexed item with someone else. */
  function Owners(index: Index): set<string> {
    set u | u in IndexUsers(index) && Partners(index, u) != {}
  }

  function Row(sim: Matrix, u: string): map<string, real> {
    if u in sim then sim[u] else map[]
  }

  function Get(row: map<string, real>, v: string): real {
    if v in row then row[v] else 0.0
  }

  /** The score of (u, v), 0 where the matrix has no entry. */
  function Cell(sim: Matrix, u: string, v: string): real {
    Get(Row(sim, u), v)
  }

  /**
   * The matrix after running the accumulation loop on `base`: a row for
   * each user of `base` and each user who shares an item with another, an
   * entry for each such partner, and in it the sum of the weights of the
   * shared items added to what `base` held.
   */
  ghost function Accumulated(base: Matrix, index: Index, popular: map<string, nat>, weight: nat -> real): Matrix {
    map u | u in base.Keys + Owners(index) ::
      map v | v in Row(base, u).Keys + Partners(index, u) ::
        Cell(base, u, v) + (if u != v then Weights(CoItems(index, u, v), popular, weight) else 0.0)
  }

  /** `row[v] += wt` for every `v` in `vs`, with `setdefault(v, 0)`. */
  function AddRow(row: map<string, real>, vs: set<string>, wt: real): map<string, real> {
    map v | v in row.Keys + vs :: Get(row, v) + (if v in vs then wt else 0.0)
  }

  /**
   * The effect of the two inner loops for one item rated by `users`, once
   * the rows of the users in `rows` are done: each of them that has a
   * co-rater gets `wt` added for every co-rater.
   */
  function AddPairs(sim: Matrix, users: set<string>, rows: set<string>, wt: real): Matrix {
    map u | u in sim.Keys + (set u | u in rows && u in users && users - {u} != {}) ::
      if u in rows && u in users && users - {u} != {} then AddRow(Row(sim, u), users - {u}, wt) else sim[u]
  }

  lemma AddRowStep(row: map<string, real>, done: set<string>, v: string, wt: real)
    requires v !in done
    ensures AddRow(row, done + {v}, wt) == AddRow(row, done, wt)[v := Get(AddRow(row, done, wt), v) + wt]
  {
  }

  lemma AddRowNone(row: map<string, real>, wt: real)
    ensures AddRow(row, {}, wt) == row
  {
  }

  lemma AddPairsStep(sim: Matrix, users: set<string>, done: set<string>, u: string, wt: real)
    requires u in users && u !in done
    ensures AddPairs(sim, users, done + {u}, wt) ==
      if users - {u} == {} then AddPairs(sim, users, done, wt)
      else AddPairs(sim, users, done, wt)[u := AddRow(Row(sim, u), users - {u}, wt)]
  {
  }

  /** The innermost loop for one co-rater `u`: `sim[u][v] += wt` for every other co-rater `v`. */
  method AddToRow(sim: Matrix, users: set<string>, u: string, wt: real) returns (out: Matrix)
    ensures out == if users - {u} == {} then sim else sim[u := AddRow(Row(sim, u), users - {u}, wt)]
  {
    out := sim;
    var vs := users;
    while vs != {}
      invariant vs <= users
      invariant out == if (users - vs) - {u} == {} then sim else sim[u := AddRow(Row(sim, u), (users - vs) - {u}, wt)]
      decreases vs
    {
      var v :| v in vs;
      out := AddEntry(out, sim, users, u, wt, vs, v);
      vs := vs - {v};
    }
    assert users - vs == users;
  }

  /** One step of the innermost loop: `sim[u].setdefault(v, 0); sim[u][v] += wt` unless `v` is `u`. */
  method AddEntry(out: Matrix, ghost sim: Matrix, ghost users: set<string>, u: string, wt: real, ghost vs: set<string>, v: string)
    returns (next: Matrix)
    requires v in vs && vs <= users
    requires out == if (users - vs) - {u} == {} then sim else sim[u := AddRow(Row(sim, u), (users - vs) - {u}, wt)]
    ensures next == if (users - (vs - {v})) - {u} == {} then sim else sim[u := AddRow(Row(sim, u), (users - (vs - {v})) - {u}, wt)]
  {
    var done := users - vs;
    assert users - (vs - {v}) == done + {v};
    if u != v {
      var row := if u in out then out[u] else map[];
      var current := if v in row then row[v] else 0.0;
      AddRowStep(Row(sim, u), done - {u}, v, wt);
      AddRowNone(Row(sim, u), wt);
      assert (done + {v}) - {u} == (done - {u}) + {v};
      next := out[u := row[v := current + wt]];
    } else {
      assert (done + {v}) - {u} == done - {u};
      next := out;
    }
  }

  /** One step of the middle loop: the row of co-rater `u` gets `wt` for each other co-rater. */
  method AddCoRater(out: Matrix, ghost sim: Matrix, users: set<string>, wt: real, ghost us: set<string>, u: string)
    returns (next: Matrix)
    requires u in us && us <= users
    requires out == AddPairs(sim, users, users - us, wt)
    ensures next == AddPairs(sim, users, users - (us - {u}), wt)
  {
    AddPairsStep(sim, users, users - us, u, wt);
    assert users - (us - {u}) == (users - us) + {u};
    assert Row(out, u) == Row(sim, u);
    next := AddToRow(out, users, u, wt);
  }

  /** The two inner loops for one item: every ordered pair of distinct co-raters gets `wt`. */
  method AddCoRaters(sim: Matrix, users: set<string>, wt: real) returns (out: Matrix)
    ensures out == AddPairs(sim, users, users, wt)
  {
    out := sim;
    var us := users;
    assert AddPairs(sim, users, {}, wt) == sim;
    while us != {}
      invariant us <= users
      invariant out == AddPairs(sim, users, users - us, wt)
      decreases us
    {
      var u :| u in us;
      out := AddCoRater(out, sim, users, wt, us, u);
      us := us - {u};
    }
    assert users - us == users;
  }

  /** The part of the index for the items in `items`. */
  function Restrict(index: Index, items: set<string>): Index {
    map m | m in index && m in items :: index[m]
  }

  /** Two matrices with the same rows, the same entries and the same scores are equal. */
  lemma MatrixEqual(a: Matrix, b: Matrix)
    requires forall u :: u in a <==> u in b
    requires forall u :: Row(a, u).Keys == Row(b, u).Keys
    requires forall u, v :: Cell(a, u, v) == Cell(b, u, v)
    ensures a == b
  {
    forall u | u in a ensures a[u] == b[u] {
      assert Row(a, u).Keys == Row(b, u).Keys;
      forall v | v in a[u] ensures a[u][v] == b[u][v] {
        assert Cell(a, u, v) == Cell(b, u, v);
      }
    }
  }

  /** Where Accumulated has a row and what entries the row has. */
  lemma AccumulatedRow(base: Matrix, index: Index, popular: map<string, nat>, weight: nat -> real, u: string)
    ensures u in Accumulated(base, index, popular, weight) <==> u in base || Partners(index, u) != {}
    ensures Row(Accumulated(base, index, popular, weight), u).Keys == Row(base, u).Keys + Partners(index, u)
  {
    if Partners(index, u) != {} {
      var v :| v in Partners(index, u);
      var m :| m in CoItems(index, u, v);
      assert u in IndexUsers(index);
    }
  }

  /** Every score of Accumulated, inside or outside its entries. */
  lemma AccumulatedCell(base: Matrix, index: Index, popular: map<string, nat>, weight: nat -> real, u: string, v: string)
    ensures Cell(Accumulated(base, index, popular, weight), u, v)
      == Cell(base, u, v) + (if u != v then Weights(CoItems(index, u, v), popular, weight) else 0.0)
  {
    AccumulatedRow(base, index, popular, weight, u);
    if u != v && CoItems(index, u, v) != {} {
      var m :| m in CoItems(index, u, v);
      assert v in IndexUsers(index);
      assert v in Partners(index, u);
    }
  }

  /** Where AddPairs has a row, what entries the row has, and every score. */
  lemma AddPairsPoint(sim: Matrix, users: set<string>, wt: real, u: string, v: string)
    ensures u in AddPairs(sim, users, users, wt) <==> u in sim || (u in users && users - {u} != {})
    ensures Row(AddPairs(sim, users, users, wt), u).Keys == Row(sim, u).Keys + (if u in users then users - {u} else {})
    ensures Cell(AddPairs(sim, users, users, wt), u, v)
      == Cell(sim, u, v) + (if u in users && v in users && u != v then wt else 0.0)
  {
  }

  lemma CoItemsStep(index: Index, done: set<string>, m: string, u: string, v: string)
    requires m in index && m !in done
    ensures m !in CoItems(Restrict(index, done), u, v)
    ensures CoItems(Restrict(index, done + {m}), u, v)
      == CoItems(Restrict(index, done), u, v) + (if u in index[m] && v in index[m] then {m} else {})
  {
  }

  lemma PartnersStep(index: Index, done: set<string>, m: string, u: string)
    requires m in index && m !in done
    ensures Partners(Restrict(index, done + {m}), u)
      == Partners(Restrict(index, done), u) + (if u in index[m] then index[m] - {u} else {})
  {
    var before := Restrict(index, done);
    var after := Restrict(index, done + {m});
    forall v ensures v in Partners(after, u) <==> v in Partners(before, u) + (if u in index[m] then index[m] - {u} else {}) {
      CoItemsStep(index, done, m, u, v);
      if v in Partners(after, u) {
        var x :| x in CoItems(after, u, v);
        if x != m {
          assert v in IndexUsers(before);
        }
      }
      if v in Partners(before, u) {
        var x :| x in CoItems(before, u, v);
        assert v in IndexUsers(after);
      }
      if u in index[m] && v in index[m] - {u} {
        assert v in IndexUsers(after);
      }
    }
  }

  lemma WeightsStep(index: Index, done: set<string>, m: string, popular: map<string, nat>, weight: nat -> real, u: string, v: string)
    requires m in index && m !in done
    ensures Weights(CoItems(Restrict(index, done + {m}), u, v), popular, weight)
      == Weights(CoItems(Restrict(index, done), u, v), popular, weight)
         + (if u in index[m] && v in index[m] then ItemWeight(popular, weight, m) else 0.0)
  {
    CoItemsStep(index, done, m, u, v);
    var after := CoItems(Restrict(index, done + {m}), u, v);
    if u in index[m] && v in index[m] {
      WeightsRemove(after, popular, weight, m);
      assert after - {m} == CoItems(Restrict(index, done), u, v);
    } else {
      assert after == CoItems(Restrict(index, done), u, v);
    }
  }

  /** The matrix after accumulating the items of `done` and then item `m`. */
  ghost function ThenItem(base: Matrix, index: Index, done: set<string>, m: string, popular: map<string, nat>, weight: nat -> real): Matrix
    requires m in index && m in popular
  {
    AddPairs(Accumulated(base, Restrict(index, done), popular, weight), index[m], index[m], weight(popular[m]))
  }

  lemma ThenItemRow(base: Matrix, index: Index, done: set<string>, m: string, popular: map<string, nat>, weight: nat -> real, u: string)
    requires m in index && m !in done && m in popular
    ensures u in ThenItem(base, index, done, m, popular, weight) <==> u in Accumulated(base, Restrict(index, done + {m}), popular, weight)
    ensures Row(ThenItem(base, index, done, m, popular, weight), u).Keys
         == Row(Accumulated(base, Restrict(index, done + {m}), popular, weight), u).Keys
  {
    var users := index[m];
    var a := Accumulated(base, Restrict(index, done), popular, weight);
    var lhs := AddPairs(a, users, users, weight(popular[m]));
    var rhs := Accumulated(base, Restrict(index, done + {m}), popular, weight);
    var pBefore := Partners(Restrict(index, done), u);
    var pAfter := Partners(Restrict(index, done + {m}), u);
    var extra := if u in users then users - {u} else {};
    AccumulatedRow(base, Restrict(index, done), popular, weight, u);
    AccumulatedRow(base, Restrict(index, done + {m}), popular, weight, u);
    AddPairsPoint(a, users, weight(popular[m]), u, u);
    PartnersStep(index, done, m, u);
    RowsAgree(base, a, lhs, rhs, u, pBefore, pAfter, extra);
  }

  /** The set reasoning behind ThenItemRow, apart from the definitions. */
  lemma RowsAgree(base: Matrix, a: Matrix, lhs: Matrix, rhs: Matrix, u: string, pBefore: set<string>, pAfter: set<string>, extra: set<string>)
    requires (u in a <==> u in base || pBefore != {}) && Row(a, u).Keys == Row(base, u).Keys + pBefore
    requires (u in rhs <==> u in base || pAfter != {}) && Row(rhs, u).Keys == Row(base, u).Keys + pAfter
    requires (u in lhs <==> u in a || extra != {}) && Row(lhs, u).Keys == Row(a, u).Keys + extra
    requires pAfter == pBefore + extra
    ensures (u in lhs <==> u in rhs) && Row(lhs, u).Keys == Row(rhs, u).Keys
  {
  }

  lemma ThenItemCell(base: Matrix, index: Index, done: set<string>, m: string, popular: map<string, nat>, weight: nat -> real, u: string, v: string)
    requires m in index && m !in done && m in popular
    ensures Cell(ThenItem(base, index, done, m, popular, weight), u, v)
         == Cell(Accumulated(base, Restrict(index, done + {m}), popular, weight), u, v)
  {
    var a := Accumulated(base, Restrict(index, done), popular, weight);
    AccumulatedCell(base, Restrict(index, done), popular, weight, u, v);
    AccumulatedCell(base, Restrict(index, done + {m}), popular, weight, u, v);
    AddPairsPoint(a, index[m], weight(popular[m]), u, v);
    WeightsStep(index, done, m, popular, weight, u, v);
  }

  /** Taking one more item into the accumulation adds its weight to every pair of its co-raters. */
  lemma AccumulatedStep(base: Matrix, index: Index, done: set<string>, m: string, popular: map<string, nat>, weight: nat -> real)
    requires m in index && m !in done && m in popular
    ensures ThenItem(base, index, done, m, popular, weight) == Accumulated(base, Restrict(index, done + {m}), popular, weight)
  {
    var lhs := ThenItem(base, index, done, m, popular, weight);
    var rhs := Accumulated(base, Restrict(index, done + {m}), popular, weight);
    forall u ensures (u in lhs <==> u in rhs) && Row(lhs, u).Keys == Row(rhs, u).Keys {
      ThenItemRow(base, index, done, m, popular, weight, u);
    }
    forall u, v ensures Cell(lhs, u, v) == Cell(rhs, u, v) {
      ThenItemCell(base, index, done, m, popular, weight, u, v);
    }
    MatrixEqual(ThenItem(base, index, done, m, popular, weight), Accumulated(base, Restrict(index, done + {m}), popular, weight));
  }

  /** Accumulating no item leaves the matrix as it was. */
  lemma AccumulatedNone(base: Matrix, index: Index, popular: map<string, nat>, weight: nat -> real)
    ensures Accumulated(base, Restrict(index, {}), popular, weight) == base
  {
    assert Restrict(index, {}) == map[];
    var a := Accumulated(base, map[], popular, weight);
    forall u ensures (u in a <==> u in base) && Row(a, u).Keys == Row(base, u).Keys {
      AccumulatedRow(base, map[], popular, weight, u);
    }
    forall u, v ensures Cell(a, u, v) == Cell(base, u, v) {
      AccumulatedCell(base, map[], popular, weight, u, v);
    }
    MatrixEqual(a, base);
  }

  /** One step of the accumulation loop: the co-raters of item `m` get its weight. */
  method AccumulateItem(sim: Matrix, ghost base: Matrix, index: Index, popular: map<string, nat>, weight: nat -> real,
                        ghost movies: set<string>, m: string)
    returns (next: Matrix)
    requires index.Keys <= popular.Keys
    requires m in movies && movies <= index.Keys
    requires sim == Accumulated(base, Restrict(index, index.Keys - movies), popular, weight)
    ensures next == Accumulated(base, Restrict(index, index.Keys - (movies - {m})), popular, weight)
  {
    AccumulatedStep(base, index, index.Keys - movies, m, popular, weight);
    assert index.Keys - (movies - {m}) == (index.Keys - movies) + {m};
    next := AddCoRaters(sim, index[m], weight(popular[m]));
  }

  /** The accumulation loop of `calc_user_sim`, over every item of the index. */
  method Accumulate(base: Matrix, index: Index, popular: map<string, nat>, weight: nat -> real) returns (sim: Matrix)
    requires index.Keys <= popular.Keys
    ensures sim == Accumulated(base, index, popular, weight)
  {
    sim := base;
    var movies := index.Keys;
    AccumulatedNone(base, index, popular, weight);
    while movies != {}
      invariant movies <= index.Keys
      invariant sim == Accumulated(base, Restrict(index, index.Keys - movies), popular, weight)
      decreases movies
    {
      var m :| m in movies;
      sim := AccumulateItem(sim, base, index, popular, weight, movies, m);
      movies := movies - {m};
    }
    assert Restrict(index, index.Keys - movies) == index;
  }

  // ---------------------------------------------------------------------
  // Normalisation: the last loop of `calc_user_sim`

  /** Every user the matrix mentions is a train user with at least one item. */
  predicate OverTrain(sim: Matrix, train: Partition) {
    forall u :: u in sim ==> u in train && |train[u]| > 0 && forall v :: v in sim[u] ==> v in train && |train[v]| > 0
  }

  /** Loading more ratings keeps every mentioned user a train user with an item. */
  lemma OverTrainGrows(sim: Matrix, p: Partition, q: Partition)
    requires OverTrain(sim, p) && Grows(p, q)
    ensures OverTrain(sim, q)
  {
    forall u | u in p && |p[u]| > 0 ensures u in q && |q[u]| > 0 {
      var m :| m in p[u];
      assert m in q[u];
    }
  }

  /** The supplied square root is positive on positive arguments. */
  ghost predicate RootPositive(root: nat -> real) {
    forall n: nat :: n > 0 ==> root(n) > 0.0
  }

  /** `math.sqrt(len(train_set[u]) * len(train_set[v]))` */
  function Denominator(train: Partition, root: nat -> real, u: string, v: string): (d: real)
    requires u in train && |train[u]| > 0 && v in train && |train[v]| > 0 && RootPositive(root)
    ensures d > 0.0
  {
    var n := |train[u]| * |train[v]|;
    assert n > 0 by {
      PositiveProduct(|train[u]|, |train[v]|);
    }
    root(n)
  }

  lemma PositiveProduct(a: nat, b: nat)
    requires a > 0 && b > 0
    ensures a * b > 0
  {
  }

  /** Row `u` with every score divided by the denominator of its pair. */
  function ScaledRow(row: map<string, real>, train: Partition, root: nat -> real, u: string): map<string, real>
    requires u in train && |train[u]| > 0 && RootPositive(root)
    requires forall v :: v in row ==> v in train && |train[v]| > 0
  {
    map v | v in row :: row[v] / Denominator(train, root, u, v)
  }

  /** The matrix after the normalisation loop. */
  function Normalized(sim: Matrix, train: Partition, root: nat -> real): Matrix
    requires OverTrain(sim, train) && RootPositive(root)
  {
    map u | u in sim :: ScaledRow(sim[u], train, root, u)
  }

  /** Row `u` part way through the inner loop: the scores of `done` are already divided. */
  function PartlyScaled(row: map<string, real>, train: Partition, root: nat -> real, u: string, done: set<string>): map<string, real>
    requires u in train && |train[u]| > 0 && RootPositive(root)
    requires forall v :: v in row ==> v in train && |train[v]| > 0
  {
    map v | v in row :: if v in done then row[v] / Denominator(train, root, u, v) else row[v]
  }

  lemma PartlyScaledStep(row: map<string, real>, train: Partition, root: nat -> real, u: string, done: set<string>, v: string)
    requires u in train && |train[u]| > 0 && RootPositive(root)
    requires forall v :: v in row ==> v in train && |train[v]| > 0
    requires v in row && v !in done
    ensures v in train && |train[v]| > 0
    ensures var part := PartlyScaled(row, train, root, u, done);
      v in part && part[v] == row[v]
    ensures var part := PartlyScaled(row, train, root, u, done);
      PartlyScaled(row, train, root, u, done + {v}) == part[v := part[v] / Denominator(train, root, u, v)]
  {
  }

  lemma PartlyScaledEnds(row: map<string, real>, train: Partition, root: nat -> real, u: string)
    requires u in train && |train[u]| > 0 && RootPositive(root)
    requires forall v :: v in row ==> v in train && |train[v]| > 0
    ensures PartlyScaled(row, train, root, u, {}) == row
    ensures PartlyScaled(row, train, root, u, row.Keys) == ScaledRow(row, train, root, u)
  {
  }

  /** One step of the inner normalisation loop: the score of `v` is divided in place. */
  method ScaleEntry(out: map<string, real>, ghost row: map<string, real>, train: Partition, root: nat -> real, u: string,
                    ghost vs: set<string>, v: string)
    returns (next: map<string, real>)
    requires u in train && |train[u]| > 0 && RootPositive(root)
    requires forall v :: v in row ==> v in train && |train[v]| > 0
    requires v in vs && vs <= row.Keys
    requires out == PartlyScaled(row, train, root, u, row.Keys - vs)
    ensures next == PartlyScaled(row, train, root, u, row.Keys - (vs - {v}))
  {
    PartlyScaledStep(row, train, root, u, row.Keys - vs, v);
    assert row.Keys - (vs - {v}) == (row.Keys - vs) + {v};
    next := out[v := out[v] / Denominator(train, root, u, v)];
  }

  /** The inner normalisation loop for the row of `u`. */
  method ScaleRow(row: map<string, real>, train: Partition, root: nat -> real, u: string) returns (out: map<string, real>)
    requires u in train && |train[u]| > 0 && RootPositive(root)
    requires forall v :: v in row ==> v in train && |train[v]| > 0
    ensures out == ScaledRow(row, train, root, u)
  {
    out := row;
    var vs := row.Keys;
    PartlyScaledEnds(row, train, root, u);
    while vs != {}
      invariant vs <= row.Keys
      invariant out == PartlyScaled(row, train, root, u, row.Keys - vs)
      decreases vs
    {
      var v :| v in vs;
      out := ScaleEntry(out, row, train, root, u, vs, v);
      vs := vs - {v};
    }
  }

  /** The matrix part way through the outer loop: the rows of `done` are already scaled. */
  function PartlyNormalized(sim: Matrix, train: Partition, root: nat -> real, done: set<string>): Matrix
    requires OverTrain(sim, train) && RootPositive(root)
  {
    map u | u in sim :: if u in done then ScaledRow(sim[u], train, root, u) else sim[u]
  }

  lemma PartlyNormalizedStep(sim: Matrix, train: Partition, root: nat -> real, done: set<string>, u: string)
    requires OverTrain(sim, train) && RootPositive(root)
    requires u in sim && u !in done
    ensures var part := PartlyNormalized(sim, train, root, done); u in part && part[u] == sim[u]
    ensures u in train && |train[u]| > 0 && forall v :: v in sim[u] ==> v in train && |train[v]| > 0
    ensures PartlyNormalized(sim, train, root, done + {u})
         == PartlyNormalized(sim, train, root, done)[u := ScaledRow(sim[u], train, root, u)]
  {
  }

  lemma PartlyNormalizedEnds(sim: Matrix, train: Partition, root: nat -> real)
    requires OverTrain(sim, train) && RootPositive(root)
    ensures PartlyNormalized(sim, train, root, {}) == sim
    ensures PartlyNormalized(sim, train, root, sim.Keys) == Normalized(sim, train, root)
  {
  }

  /** One step of the outer normalisation loop: the row of `u` is scaled in place. */
  method ScaleRowOf(out: Matrix, ghost sim: Matrix, train: Partition, root: nat -> real, ghost us: set<string>, u: string)
    returns (next: Matrix)
    requires OverTrain(sim, train) && RootPositive(root)
    requires u in us && us <= sim.Keys
    requires out == PartlyNormalized(sim, train, root, sim.Keys - us)
    ensures next == PartlyNormalized(sim, train, root, sim.Keys - (us - {u}))
  {
    PartlyNormalizedStep(sim, train, root, sim.Keys - us, u);
    assert sim.Keys - (us - {u}) == (sim.Keys - us) + {u};
    var row := ScaleRow(out[u], train, root, u);
    next := out[u := row];
  }

  /** The normalisation loop: every score divided by the root of the product of the two train-set sizes. */
  method Normalize(sim: Matrix, train: Partition, root: nat -> real) returns (out: Matrix)
    requires OverTrain(sim, train) && RootPositive(root)
    ensures out == Normalized(sim, train, root)
  {
    out := sim;
    var us := sim.Keys;
    PartlyNormalizedEnds(sim, train, root);
    while us != {}
      invariant us <= sim.Keys
      invariant out == PartlyNormalized(sim, train, root, sim.Keys - us)
      decreases us
    {
      var u :| u in us;
      out := ScaleRowOf(out, sim, train, root, us, u);
      us := us - {u};
    }
  }

  // ---------------------------------------------------------------------
  // What calc_user_sim computes, and its properties

  /** The items both users rated in the train partition (none for a user outside it). */
  function Common(train: Partition, u: string, v: string): set<string> {
    if u in train && v in train then train[u].Keys * train[v].Keys else {}
  }

  /** `len(movie_user)` is the number of train items. */
  lemma IndexSize(train: Partition)
    ensures |InvertedIndex(train)| == |Items(train)|
  {
    assert InvertedIndex(train).Keys == Items(train);
  }

  /** The inverted index finds exactly the items the two users share. */
  lemma IndexCoItems(train: Partition, u: string, v: string)
    ensures CoItems(InvertedIndex(train), u, v) == Common(train, u, v)
  {
    var index := InvertedIndex(train);
    forall m | m in Common(train, u, v) ensures m in CoItems(index, u, v) {
      assert m in Items(train);
    }
  }

  /** The users the inverted index mentions are train users, each with an item. */
  lemma IndexUsersInTrain(train: Partition)
    ensures forall u :: u in IndexUsers(InvertedIndex(train)) ==> u in train && |train[u]| > 0
  {
    forall u | u in IndexUsers(InvertedIndex(train)) ensures u in train && |train[u]| > 0 {
      var m :| m in InvertedIndex(train) && u in InvertedIndex(train)[m];
      assert m in train[u].Keys;
    }
  }

  /** Accumulating over the train index keeps every mentioned user a train user with an item. */
  lemma AccumulatedOverTrain(base: Matrix, train: Partition, popular: map<string, nat>, weight: nat -> real)
    requires OverTrain(base, train)
    ensures OverTrain(Accumulated(base, InvertedIndex(train), popular, weight), train)
  {
    IndexUsersInTrain(train);
  }

  /**
   * The matrix `calc_user_sim` leaves behind when it starts from `base`:
   * the source does not clear `user_sim_matrix` first, so `base` is what
   * the matrix held before the call.
   */
  ghost function Similarities(base: Matrix, train: Partition, weight: nat -> real, root: nat -> real): Matrix
    requires OverTrain(base, train) && RootPositive(root)
  {
    AccumulatedOverTrain(base, train, Popularity(train), weight);
    Normalized(Accumulated(base, InvertedIndex(train), Popularity(train), weight), train, root)
  }

  /** The two phases of `calc_user_sim` compose to Similarities, which again mentions only train users. */
  lemma SimilaritiesPhases(base: Matrix, train: Partition, weight: nat -> real, root: nat -> real, raw: Matrix, sim: Matrix)
    requires OverTrain(base, train) && RootPositive(root)
    requires raw == Accumulated(base, InvertedIndex(train), Popularity(train), weight)
    requires OverTrain(raw, train) && sim == Normalized(raw, train, root)
    ensures sim == Similarities(base, train, weight, root) && OverTrain(sim, train)
  {
    NormalizedOverTrain(raw, train, root);
  }

  /**
   * The body of `calc_user_sim` on the values of its fields: the number of
   * train items for `movie_count`, and the accumulated and normalised
   * matrix built on top of `base`, what the matrix held before.
   */
  method Build(base: Matrix, train: Partition, weight: nat -> real, root: nat -> real) returns (movieCount: nat, sim: Matrix)
    requires OverTrain(base, train) && RootPositive(root)
    ensures movieCount == |Items(train)|
    ensures sim == Similarities(base, train, weight, root)
    ensures OverTrain(sim, train)
  {
    var moviePopular := CountPopularity(train);
    var movieUser := BuildMovieUsers(train);
    IndexSize(train);
    movieCount := |movieUser|;
    var raw := Accumulate(base, movieUser, moviePopular, weight);
    AccumulatedOverTrain(base, train, moviePopular, weight);
    sim := Normalize(raw, train, root);
    SimilaritiesPhases(base, train, weight, root, raw, sim);
  }

  /**
   * Starting from an empty matrix, the raw score of a pair of distinct
   * users is the sum of `weight(popularity)` over the items they share.
   */
  lemma RawScore(train: Partition, weight: nat -> real, u: string, v: string)
    requires u != v
    ensures Cell(Accumulated(map[], InvertedIndex(train), Popularity(train), weight), u, v)
         == Weights(Common(train, u, v), Popularity(train), weight)
  {
    AccumulatedCell(map[], InvertedIndex(train), Popularity(train), weight, u, v);
    IndexCoItems(train, u, v);
  }

  lemma CommonSymmetric(train: Partition, u: string, v: string)
    ensures Common(train, u, v) == Common(train, v, u)
  {
  }

  /** Starting from an empty matrix, a raw entry exists exactly for distinct users who share an item. */
  lemma RawEntries(train: Partition, weight: nat -> real, u: string, v: string)
    ensures var raw := Accumulated(map[], InvertedIndex(train), Popularity(train), weight);
      (u in raw && v in raw[u]) <==> u != v && Common(train, u, v) != {}
  {
    var index := InvertedIndex(train);
    var raw := Accumulated(map[], index, Popularity(train), weight);
    AccumulatedRow(map[], index, Popularity(train), weight, u);
    IndexCoItems(train, u, v);
    assert Row(map[], u).Keys == {};
    if u in raw && v in raw[u] {
      assert v in Row(raw, u).Keys;
      assert v in Partners(index, u);
    }
    if u != v && Common(train, u, v) != {} {
      var m :| m in Common(train, u, v);
      assert u in index[m] && v in index[m];
      assert v in IndexUsers(index);
      assert v in Partners(index, u);
      assert v in Row(raw, u).Keys;
    }
  }

  /**
   * Starting from an empty matrix, `v` is in the row of `u` exactly when
   * they are different users who share a train item; in particular no user
   * is in its own row, and `v` is in the row of `u` iff `u` is in the row of `v`.
   */
  lemma SimilarityEntries(train: Partition, weight: nat -> real, root: nat -> real, u: string, v: string)
    requires RootPositive(root)
    ensures var sim := Similarities(map[], train, weight, root);
      (u in sim && v in sim[u]) <==> u != v && Common(train, u, v) != {}
    ensures var sim := Similarities(map[], train, weight, root);
      (u in sim && v in sim[u]) <==> (v in sim && u in sim[v])
  {
    var raw := Accumulated(map[], InvertedIndex(train), Popularity(train), weight);
    AccumulatedOverTrain(map[], train, Popularity(train), weight);
    NormalizedCell(raw, train, root, u, v);
    NormalizedCell(raw, train, root, v, u);
    RawEntries(train, weight, u, v);
    RawEntries(train, weight, v, u);
    CommonSymmetric(train, u, v);
  }

  /** No user is similar to itself. */
  lemma NoSelfSimilarity(train: Partition, weight: nat -> real, root: nat -> real, u: string)
    requires RootPositive(root)
    ensures var sim := Similarities(map[], train, weight, root);
      u in sim ==> u !in sim[u]
  {
    SimilarityEntries(train, weight, root, u, u);
  }

  /** Normalisation keeps the entries and divides each score by the denominator of its pair. */
  lemma NormalizedCell(sim: Matrix, train: Partition, root: nat -> real, u: string, v: string)
    requires OverTrain(sim, train) && RootPositive(root)
    ensures var n := Normalized(sim, train, root);
      (u in n && v in n[u]) <==> (u in sim && v in sim[u])
    ensures var n := Normalized(sim, train, root);
      u in sim && v in sim[u] ==> n[u][v] == sim[u][v] / Denominator(train, root, u, v)
  {
  }

  /**
   * Normalisation loses nothing: multiplying a normalised score back by
   * the denominator of its pair gives the accumulated score.
   */
  lemma NormalizedUndo(sim: Matrix, train: Partition, root: nat -> real, u: string, v: string)
    requires OverTrain(sim, train) && RootPositive(root)
    requires u in sim && v in sim[u]
    ensures var n := Normalized(sim, train, root);
      u in n && v in n[u] && n[u][v] * Denominator(train, root, u, v) == sim[u][v]
  {
    ScaledRowUndo(sim[u], train, root, u, v);
  }

  /** The same for one row. */
  lemma ScaledRowUndo(row: map<string, real>, train: Partition, root: nat -> real, u: string, v: string)
    requires u in train && |train[u]| > 0 && RootPositive(root)
    requires forall w :: w in row ==> w in train && |train[w]| > 0
    requires v in row
    ensures var r := ScaledRow(row, train, root, u);
      v in r && r[v] * Denominator(train, root, u, v) == row[v]
  {
    var d := Denominator(train, root, u, v);
    assert ScaledRow(row, train, root, u)[v] == row[v] / d;
  }

  /** Normalisation keeps the rows and their entries, so the matrix stays over the train users. */
  lemma NormalizedOverTrain(sim: Matrix, train: Partition, root: nat -> real)
    requires OverTrain(sim, train) && RootPositive(root)
    ensures OverTrain(Normalized(sim, train, root), train)
  {
  }

  lemma DenominatorSymmetric(train: Partition, root: nat -> real, u: string, v: string)
    requires u in train && |train[u]| > 0 && v in train && |train[v]| > 0 && RootPositive(root)
    ensures Denominator(train, root, u, v) == Denominator(train, root, v, u)
  {
    assert |train[u]| * |train[v]| == |train[v]| * |train[u]|;
  }

  /**
   * Starting from an empty matrix, every score is the summed weight of the
   * shared items over the root of the product of the two train-set sizes.
   */
  lemma SimilarityScore(train: Partition, weight: nat -> real, root: nat -> real, u: string, v: string)
    requires RootPositive(root)
    requires var sim := Similarities(map[], train, weight, root); u in sim && v in sim[u]
    ensures var sim := Similarities(map[], train, weight, root);
      u in train && |train[u]| > 0 && v in train && |train[v]| > 0
      && sim[u][v] == Weights(Common(train, u, v), Popularity(train), weight) / Denominator(train, root, u, v)
  {
    var raw := Accumulated(map[], InvertedIndex(train), Popularity(train), weight);
    AccumulatedOverTrain(map[], train, Popularity(train), weight);
    NormalizedCell(raw, train, root, u, v);
    SimilarityEntries(train, weight, root, u, v);
    RawScore(train, weight, u, v);
  }

  /** Starting from an empty matrix, the similarity matrix is symmetric. */
  lemma SimilaritySymmetric(train: Partition, weight: nat -> real, root: nat -> real, u: string, v: string)
    requires RootPositive(root)
    requires var sim := Similarities(map[], train, weight, root); u in sim && v in sim[u]
    ensures var sim := Similarities(map[], train, weight, root);
      v in sim && u in sim[v] && sim[u][v] == sim[v][u]
  {
    SimilarityEntries(train, weight, root, u, v);
    SimilarityScore(train, weight, root, u, v);
    SimilarityScore(train, weight, root, v, u);
    CommonSymmetric(train, u, v);
    DenominatorSymmetric(train, root, u, v);
  }

  // ---------------------------------------------------------------------
  // What every run keeps, first or not

  /** No user is in its own row: the accumulation skips `u == v`. */
  predicate NoSelf(sim: Matrix) {
    forall u :: u in sim ==> u !in sim[u]
  }

  /** `v` is in the row of `u` exactly when `u` is in the row of `v`, and with the same score. */
  predicate Symmetric(sim: Matrix) {
    forall u, v :: u in sim && v in sim[u] ==> v in sim && u in sim[v] && sim[v][u] == sim[u][v]
  }

  /** Every entry of the matrix is a pair of users who share a train item. */
  predicate Related(sim: Matrix, train: Partition) {
    forall u, v :: u in sim && v in sim[u] ==> Common(train, u, v) != {}
  }

  /** Every pair of distinct users who share a train item has an entry. */
  ghost predicate Complete(sim: Matrix, train: Partition) {
    forall u, v :: u != v && Common(train, u, v) != {} ==> u in sim && v in sim[u]
  }

  /** Loading more ratings only adds shared items, so every entry still relates its pair. */
  lemma RelatedGrows(sim: Matrix, p: Partition, q: Partition)
    requires Related(sim, p) && Grows(p, q)
    ensures Related(sim, q)
  {
    forall u, v | u in sim && v in sim[u] ensures Common(q, u, v) != {} {
      var m :| m in Common(p, u, v);
      assert m in Common(q, u, v);
    }
  }

  /** Sharing an indexed item is symmetric, and so is being partners. */
  lemma PartnersSymmetric(index: Index, u: string, v: string)
    ensures CoItems(index, u, v) == CoItems(index, v, u)
    ensures v in Partners(index, u) ==> u in Partners(index, v)
  {
    if v in Partners(index, u) {
      var m :| m in CoItems(index, u, v);
      assert u in index[m];
      assert u in IndexUsers(index);
    }
  }

  /**
   * A matrix whose rows extend those of a symmetric `base` by partner sets
   * that are themselves symmetric has the mirror of every entry.
   */
  lemma MirrorEntry(base: Matrix, raw: Matrix, pu: set<string>, pv: set<string>, u: string, v: string)
    requires NoSelf(base) && Symmetric(base)
    requires u in raw && v in raw[u]
    requires u in raw <==> u in base || pu != {}
    requires v in raw <==> v in base || pv != {}
    requires Row(raw, u).Keys == Row(base, u).Keys + pu && Row(raw, v).Keys == Row(base, v).Keys + pv
    requires v in pu ==> u in pv && u != v
    ensures u != v && v in raw && u in raw[v]
  {
    assert v in Row(raw, u).Keys;
    if v in Row(base, u).Keys {
      assert u in Row(base, v).Keys;
    }
    assert u in Row(raw, v).Keys;
  }

  /** Both scores of a mirrored pair grow by the same amount over a symmetric `base`, so they stay equal. */
  lemma MirrorScore(base: Matrix, raw: Matrix, u: string, v: string, w: real)
    requires Symmetric(base)
    requires u in raw && v in raw[u] && v in raw && u in raw[v]
    requires Cell(raw, u, v) == Cell(base, u, v) + w && Cell(raw, v, u) == Cell(base, v, u) + w
    ensures raw[v][u] == raw[u][v]
  {
    if v in Row(base, u) {
      assert u in Row(base, v);
    }
    assert Cell(base, u, v) == Cell(base, v, u);
  }

  /**
   * One pair of the accumulated matrix, on a matrix that has neither
   * self-entries nor asymmetric ones and relates only users who share an
   * item: the pair also relates two different users who share an item,
   * and its mirror entry exists with the same score.
   */
  lemma AccumulatedPair(base: Matrix, train: Partition, weight: nat -> real, u: string, v: string)
    requires NoSelf(base) && Symmetric(base) && Related(base, train)
    requires var raw := Accumulated(base, InvertedIndex(train), Popularity(train), weight); u in raw && v in raw[u]
    ensures var raw := Accumulated(base, InvertedIndex(train), Popularity(train), weight);
      u != v && Common(train, u, v) != {} && v in raw && u in raw[v] && raw[v][u] == raw[u][v]
  {
    var index, popular := InvertedIndex(train), Popularity(train);
    var raw := Accumulated(base, index, popular, weight);
    AccumulatedRow(base, index, popular, weight, u);
    AccumulatedRow(base, index, popular, weight, v);
    PartnersSymmetric(index, u, v);
    MirrorEntry(base, raw, Partners(index, u), Partners(index, v), u, v);
    AccumulatedCell(base, index, popular, weight, u, v);
    AccumulatedCell(base, index, popular, weight, v, u);
    MirrorScore(base, raw, u, v, if u != v then Weights(CoItems(index, u, v), popular, weight) else 0.0);
    IndexCoItems(train, u, v);
    if v !in Row(base, u).Keys {
      assert v in Partners(index, u);
    }
  }

  /** Starting from any matrix, every pair of distinct users who share an item gets an entry. */
  lemma AccumulatedComplete(base: Matrix, train: Partition, weight: nat -> real, u: string, v: string)
    requires u != v && Common(train, u, v) != {}
    ensures var raw := Accumulated(base, InvertedIndex(train), Popularity(train), weight); u in raw && v in raw[u]
  {
    var index := InvertedIndex(train);
    AccumulatedRow(base, index, Popularity(train), weight, u);
    IndexCoItems(train, u, v);
    var m :| m in Common(train, u, v);
    assert u in index[m] && v in index[m];
    assert v in IndexUsers(index);
    assert v in Partners(index, u);
  }

  /** The accumulation keeps NoSelf, Symmetric and Related, and makes the matrix Complete. */
  lemma AccumulatedKeeps(base: Matrix, train: Partition, weight: nat -> real)
    requires NoSelf(base) && Symmetric(base) && Related(base, train)
    ensures var raw := Accumulated(base, InvertedIndex(train), Popularity(train), weight);
      NoSelf(raw) && Symmetric(raw) && Related(raw, train) && Complete(raw, train)
  {
    var raw := Accumulated(base, InvertedIndex(train), Popularity(train), weight);
    forall u, v | u in raw && v in raw[u] ensures Mirrored(raw, train, u, v) {
      AccumulatedPair(base, train, weight, u, v);
    }
    forall u, v | u != v && Common(train, u, v) != {} ensures u in raw && v in raw[u] {
      AccumulatedComplete(base, train, weight, u, v);
    }
    PairsKeep(raw, train);
  }

  /** The entry (u, v) joins two different users who share an item, and its mirror has the same score. */
  ghost predicate Mirrored(sim: Matrix, train: Partition, u: string, v: string) {
    u in sim && v in sim[u] && u != v && Common(train, u, v) != {} && v in sim && u in sim[v] && sim[v][u] == sim[u][v]
  }

  /** A matrix whose every entry is Mirrored has no self-entries, is symmetric and relates only users who share an item. */
  lemma PairsKeep(sim: Matrix, train: Partition)
    requires forall u, v :: u in sim && v in sim[u] ==> Mirrored(sim, train, u, v)
    ensures NoSelf(sim) && Symmetric(sim) && Related(sim, train)
  {
  }

  /** `a / d1 == b / d2` once the numerators and the denominators agree. */
  lemma SameQuotient(a: real, b: real, d1: real, d2: real)
    requires d1 > 0.0 && a == b && d1 == d2
    ensures a / d1 == b / d2
  {
  }

  /** Normalisation keeps NoSelf, Symmetric, Related and Complete: it changes scores, not entries. */
  lemma NormalizedKeeps(sim: Matrix, train: Partition, root: nat -> real)
    requires OverTrain(sim, train) && RootPositive(root)
    requires NoSelf(sim) && Symmetric(sim) && Related(sim, train) && Complete(sim, train)
    ensures var n := Normalized(sim, train, root);
      NoSelf(n) && Symmetric(n) && Related(n, train) && Complete(n, train)
  {
    var n := Normalized(sim, train, root);
    forall u, v | u in n && v in n[u] ensures Mirrored(n, train, u, v) {
      NormalizedCell(sim, train, root, u, v);
      NormalizedCell(sim, train, root, v, u);
      DenominatorSymmetric(train, root, u, v);
      SameQuotient(sim[v][u], sim[u][v], Denominator(train, root, v, u), Denominator(train, root, u, v));
    }
    PairsKeep(n, train);
    forall u, v | u != v && Common(train, u, v) != {} ensures u in n && v in n[u] {
      NormalizedCell(sim, train, root, u, v);
    }
  }

  /**
   * Whatever the matrix held before, as long as it kept these properties,
   * `calc_user_sim` leaves a matrix without self-entries, symmetric in
   * entries and scores, with an entry for exactly the pairs of distinct
   * users who share a train item and for the older entries, which share
   * one too.
   */
  lemma SimilaritiesKeep(base: Matrix, train: Partition, weight: nat -> real, root: nat -> real)
    requires OverTrain(base, train) && RootPositive(root)
    requires NoSelf(base) && Symmetric(base) && Related(base, train)
    ensures var sim := Similarities(base, train, weight, root);
      NoSelf(sim) && Symmetric(sim) && Related(sim, train) && Complete(sim, train)
  {
    var raw := Accumulated(base, InvertedIndex(train), Popularity(train), weight);
    AccumulatedOverTrain(base, train, Popularity(train), weight);
    AccumulatedKeeps(base, train, weight);
    NormalizedKeeps(raw, train, root);
    SimilaritiesPhases(base, train, weight, root, raw, Normalized(raw, train, root));
  }

  /**
   * `calc_user_sim` does not clear the matrix: an entry that was already
   * there gets the shared-item weights added to its old score, instead of
   * being computed afresh.
   */
  lemma RerunAddsOnTop(base: Matrix, train: Partition, weight: nat -> real, u: string, v: string)
    requires u in base && v in base[u]
    ensures var raw := Accumulated(base, InvertedIndex(train), Popularity(train), weight);
      u in raw && v in raw[u]
      && raw[u][v] == base[u][v] + (if u != v then Weights(Common(train, u, v), Popularity(train), weight) else 0.0)
  {
    var index, popular := InvertedIndex(train), Popularity(train);
    var raw := Accumulated(base, index, popular, weight);
    AccumulatedRow(base, index, popular, weight, u);
    AccumulatedCell(base, index, popular, weight, u, v);
    assert Cell(base, u, v) == base[u][v] && Cell(raw, u, v) == raw[u][v];
    IndexCoItems(train, u, v);
  }

  /** Then that accumulated score is divided once more by the denominator of its pair. */
  lemma RerunScore(base: Matrix, train: Partition, weight: nat -> real, root: nat -> real, u: string, v: string)
    requires OverTrain(base, train) && RootPositive(root)
    requires u in base && v in base[u]
    ensures var raw, sim := Accumulated(base, InvertedIndex(train), Popularity(train), weight), Similarities(base, train, weight, root);
      u in raw && v in raw[u] && u in sim && v in sim[u] && u in train && |train[u]| > 0 && v in train && |train[v]| > 0
      && sim[u][v] == raw[u][v] / Denominator(train, root, u, v)
  {
    RerunAddsOnTop(base, train, weight, u, v);
    var raw := Accumulated(base, InvertedIndex(train), Popularity(train), weight);
    AccumulatedOverTrain(base, train, Popularity(train), weight);
    SimilaritiesPhases(base, train, weight, root, raw, Normalized(raw, train, root));
    NormalizedCell(raw, train, root, u, v);
  }

  /** With positive item weights, a nonempty set of rated items weighs something. */
  lemma {:induction false} WeightsPositive(items: set<string>, popular: map<string, nat>, weight: nat -> real)
    requires items <= popular.Keys && forall p: nat :: weight(p) > 0.0
    ensures Weights(items, popular, weight) >= 0.0
    ensures items != {} ==> Weights(items, popular, weight) > 0.0
    decreases |items|
  {
    if items != {} {
      var m :| m in items;
      WeightsRemove(items, popular, weight, m);
      WeightsPositive(items - {m}, popular, weight);
    }
  }

  /**
   * The arithmetic of a second run: a first score `w / d` with `w, d > 0`,
   * to which `w` is added again before dividing by `d` once more, grows.
   */
  lemma ScoreGrows(s1: real, raw2: real, s2: real, w: real, d: real)
    requires w > 0.0 && d > 0.0
    requires s1 == w / d && raw2 == s1 + w && s2 == raw2 / d
    ensures s2 > s1
  {
    assert s1 > 0.0;
    assert s2 == s1 / d + s1;
  }

  /**
   * Running `calc_user_sim` twice is not running it once: when the item
   * weights are positive, as `1 / log(1 + p)` is for every popularity
   * `p >= 1`, the score of every pair of distinct users who share an item
   * grows on the second run.
   */
  lemma RerunNotIdempotent(train: Partition, weight: nat -> real, root: nat -> real, u: string, v: string)
    requires RootPositive(root) && forall p: nat :: weight(p) > 0.0
    requires u != v && Common(train, u, v) != {}
    ensures var first := Similarities(map[], train, weight, root);
      OverTrain(first, train) && u in first && v in first[u]
      && var second := Similarities(first, train, weight, root);
        u in second && v in second[u] && second[u][v] > first[u][v]
  {
    FirstRun(train, weight, root, u, v);
    var first := Similarities(map[], train, weight, root);
    RerunAddsOnTop(first, train, weight, u, v);
    RerunScore(first, train, weight, root, u, v);
    var raw2 := Accumulated(first, InvertedIndex(train), Popularity(train), weight)[u][v];
    ScoreGrows(first[u][v], raw2, Similarities(first, train, weight, root)[u][v],
               Weights(Common(train, u, v), Popularity(train), weight), Denominator(train, root, u, v));
  }

  /** The first run scores a pair of distinct users who share an item with a positive weight sum. */
  lemma FirstRun(train: Partition, weight: nat -> real, root: nat -> real, u: string, v: string)
    requires RootPositive(root) && forall p: nat :: weight(p) > 0.0
    requires u != v && Common(train, u, v) != {}
    ensures var first := Similarities(map[], train, weight, root);
      OverTrain(first, train) && u in first && v in first[u]
      && u in train && |train[u]| > 0 && v in train && |train[v]| > 0
      && Weights(Common(train, u, v), Popularity(train), weight) > 0.0
      && first[u][v] == Weights(Common(train, u, v), Popularity(train), weight) / Denominator(train, root, u, v)
  {
    AccumulatedOverTrain(map[], train, Popularity(train), weight);
    NormalizedOverTrain(Accumulated(map[], InvertedIndex(train), Popularity(train), weight), train, root);
    SimilarityEntries(train, weight, root, u, v);
    SimilarityScore(train, weight, root, u, v);
    assert Common(train, u, v) <= Popularity(train).Keys by {
      forall m | m in Common(train, u, v) ensures m in Items(train) {
        assert u in train.Keys && m in train[u];
      }
    }
    WeightsPositive(Common(train, u, v), Popularity(train), weight);
  }
}
