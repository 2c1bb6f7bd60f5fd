/**
 * What `UserCF.load_train_test_set` reads from its input and where it puts
 * it. A line is `user:item,rating,timestamp;item,rating,timestamp;...`;
 * every well-formed item entry yields one (user, item) record, the first
 * `capacity` records are accepted, and each accepted record is stored with
 * the implicit rating 1.0 in the train or the test partition as one random
 * draw decides.
 */
module Loading {
  import opened Text

  /** One (user, item) pair read from an item entry. */
  datatype Record = Record(user: string, item: string)

  /** user -> item -> rating: the shape of `train_set` and `test_set`. */
  type Partition = map<string, map<string, real>>

  /** The record an item entry yields: none when it has fewer than three `,`-fields. */
  function EntryRecords(user: string, entry: string): seq<Record> {
    var fields := Split(entry, ',');
    if |fields| < 3 then [] else [Record(user, fields[0])]
  }

  /** `f(xs[0]) + f(xs[1]) + ...`: one list of results per element, concatenated in order. */
  function ConcatMap<A, B>(xs: seq<A>, f: A -> seq<B>): seq<B> {
    if xs == [] then [] else ConcatMap(xs[..|xs| - 1], f) + f(xs[|xs| - 1])
  }

  /** EntryRecords for a fixed user, as a function of the entry. */
  function EntryRecordsOf(user: string): string -> seq<Record> {
    e => EntryRecords(user, e)
  }

  /** The records of a line's item entries, in order. */
  function EntriesRecords(user: string, entries: seq<string>): seq<Record> {
    ConcatMap(entries, EntryRecordsOf(user))
  }

  /** The records of one line: none when the stripped line has fewer than two `:`-fields. */
  function LineRecords(line: string): seq<Record> {
    var data := Split(Strip(line), ':');
    if |data| < 2 then [] else EntriesRecords(data[0], Split(data[1], ';'))
  }

  /** The records of all lines, in input order. */
  function Records(lines: seq<string>): seq<Record> {
    ConcatMap(lines, LineRecords)
  }

  /**
   * The number of records accepted before the loader stops: the count is
   * compared with the capacity only after a record is stored, so at least
   * one record is accepted whatever the capacity.
   */
  function Limit(capacity: int): nat {
    if capacity >= 1 then capacity else 1
  }

  /** The first `n` of `rs`, or all of them when there are no more. */
  function Take(rs: seq<Record>, n: nat): seq<Record> {
    if |rs| <= n then rs else rs[..n]
  }

  /** The records the loader accepts: the first Limit(capacity) of them. */
  function Accepted(lines: seq<string>, capacity: int): (rs: seq<Record>)
    ensures rs <= Records(lines)
    ensures |rs| <= Limit(capacity)
    ensures |rs| < Limit(capacity) ==> rs == Records(lines)
  {
    Take(Records(lines), Limit(capacity))
  }

  /** `p.setdefault(user, {})[item] = 1.0` */
  function Store(p: Partition, r: Record): Partition {
    p[r.user := (if r.user in p then p[r.user] else map[])[r.item := 1.0]]
  }

  /**
   * Train and test after storing the records `rs` in order; `draws[k]` is
   * the outcome of `random.random() < pivot` for record k (true: train).
   */
  function Route(train: Partition, test: Partition, rs: seq<Record>, draws: seq<bool>): (Partition, Partition)
    requires |rs| <= |draws|
  {
    if rs == [] then (train, test)
    else
      var before := Route(train, test, rs[..|rs| - 1], draws);
      var r := rs[|rs| - 1];
      if draws[|rs| - 1] then (Store(before.0, r), before.1) else (before.0, Store(before.1, r))
  }

  predicate Holds(p: Partition, user: string, item: string) {
    user in p && item in p[user]
  }

  /** Every stored rating is the implicit 1.0. */
  predicate AllOnes(p: Partition) {
    forall u, m :: u in p && m in p[u] ==> p[u][m] == 1.0
  }

  /** The (user, item) pairs a partition holds. */
  function Pairs(p: Partition): set<(string, string)> {
    set u, m | u in p && m in p[u] :: (u, m)
  }

  // ---------------------------------------------------------------------
  // Where the records go

  /** Storing a record adds exactly its pair. */
  lemma StoreHolds(p: Partition, r: Record, u: string, m: string)
    ensures Holds(Store(p, r), u, m) <==> Holds(p, u, m) || r == Record(u, m)
  {
  }

  /** Some record among the first `n` is (u, m) and drew `draw`. */
  predicate DrawnAmong(rs: seq<Record>, draws: seq<bool>, n: nat, u: string, m: string, draw: bool)
    requires n <= |rs| && n <= |draws|
  {
    exists k :: 0 <= k < n && rs[k] == Record(u, m) && draws[k] == draw
  }

  lemma DrawnStep(rs: seq<Record>, draws: seq<bool>, n: nat, u: string, m: string, draw: bool)
    requires n < |rs| && n < |draws|
    ensures DrawnAmong(rs, draws, n + 1, u, m, draw)
        <==> DrawnAmong(rs, draws, n, u, m, draw) || (rs[n] == Record(u, m) && draws[n] == draw)
  {
  }

  lemma DrawnPrefix(rs: seq<Record>, draws: seq<bool>, n: nat, u: string, m: string, draw: bool)
    requires n <= |rs| && n <= |draws|
    ensures DrawnAmong(rs[..n], draws, n, u, m, draw) <==> DrawnAmong(rs, draws, n, u, m, draw)
  {
    assert forall k :: 0 <= k < n ==> rs[..n][k] == rs[k];
  }

  /**
   * A pair is in the new train partition exactly when it was there before
   * or some record for it drew "train"; likewise for test with "test".
   * Each record is therefore stored in exactly one of the two partitions.
   */
  lemma {:induction false} RouteContents(train: Partition, test: Partition, rs: seq<Record>, draws: seq<bool>, u: string, m: string)
    requires |rs| <= |draws|
    ensures Holds(Route(train, test, rs, draws).0, u, m)
        <==> Holds(train, u, m) || DrawnAmong(rs, draws, |rs|, u, m, true)
    ensures Holds(Route(train, test, rs, draws).1, u, m)
        <==> Holds(test, u, m) || DrawnAmong(rs, draws, |rs|, u, m, false)
  {
    if rs != [] {
      var n := |rs| - 1;
      var before := Route(train, test, rs[..n], draws);
      RouteContents(train, test, rs[..n], draws, u, m);
      DrawnPrefix(rs, draws, n, u, m, true);
      DrawnPrefix(rs, draws, n, u, m, false);
      DrawnStep(rs, draws, n, u, m, true);
      DrawnStep(rs, draws, n, u, m, false);
      StoreHolds(before.0, rs[n], u, m);
      StoreHolds(before.1, rs[n], u, m);
    }
  }

  /** The loader writes no rating other than 1.0. */
  lemma {:induction false} RouteRatings(train: Partition, test: Partition, rs: seq<Record>, draws: seq<bool>)
    requires |rs| <= |draws|
    requires AllOnes(train) && AllOnes(test)
    ensures AllOnes(Route(train, test, rs, draws).0) && AllOnes(Route(train, test, rs, draws).1)
  {
    if rs != [] {
      RouteRatings(train, test, rs[..|rs| - 1], draws);
    }
  }

  /**
   * `q` extends `p`: no user disappears, no user loses an item, and every
   * user `q` adds has at least one item.
   */
  predicate Grows(p: Partition, q: Partition) {
    p.Keys <= q.Keys
    && (forall u :: u in p ==> p[u].Keys <= q[u].Keys)
    && (forall u :: u in q && u !in p ==> q[u] != map[])
  }

  lemma StoreGrows(p: Partition, r: Record)
    ensures Grows(p, Store(p, r))
  {
    var q := Store(p, r);
    assert r.item in q[r.user];
  }

  lemma GrowsTransitive(p: Partition, q: Partition, w: Partition)
    requires Grows(p, q) && Grows(q, w)
    ensures Grows(p, w)
  {
    forall u | u in w && u !in p ensures w[u] != map[] {
      if u in q {
        var x :| x in q[u];
        assert x in w[u];
      }
    }
  }

  /** Loading only extends the two partitions. */
  lemma {:induction false} RouteUsers(train: Partition, test: Partition, rs: seq<Record>, draws: seq<bool>)
    requires |rs| <= |draws|
    ensures Grows(train, Route(train, test, rs, draws).0)
    ensures Grows(test, Route(train, test, rs, draws).1)
  {
    if rs != [] {
      var n := |rs| - 1;
      var before := Route(train, test, rs[..n], draws);
      RouteUsers(train, test, rs[..n], draws);
      StoreGrows(before.0, rs[n]);
      StoreGrows(before.1, rs[n]);
      GrowsTransitive(train, before.0, Store(before.0, rs[n]));
      GrowsTransitive(test, before.1, Store(before.1, rs[n]));
    } else {
      assert Grows(train, train) && Grows(test, test);
    }
  }

  lemma StorePairs(p: Partition, r: Record)
    ensures Pairs(Store(p, r)) == Pairs(p) + {(r.user, r.item)}
  {
    var q := Store(p, r);
    forall x | x in Pairs(q) ensures x in Pairs(p) + {(r.user, r.item)} {
      var u, m :| u in q && m in q[u] && x == (u, m);
    }
    forall x | x in Pairs(p) + {(r.user, r.item)} ensures x in Pairs(q) {
      if x != (r.user, r.item) {
        var u, m :| u in p && m in p[u] && x == (u, m);
        assert u in q && m in q[u];
      } else {
        assert r.user in q && r.item in q[r.user];
      }
    }
  }

  /** Each accepted record adds at most one (user, item) pair to the two partitions together. */
  lemma {:induction false} RoutePairCount(train: Partition, test: Partition, rs: seq<Record>, draws: seq<bool>)
    requires |rs| <= |draws|
    ensures |Pairs(Route(train, test, rs, draws).0)| + |Pairs(Route(train, test, rs, draws).1)|
         <= |Pairs(train)| + |Pairs(test)| + |rs|
  {
    if rs != [] {
      var n := |rs| - 1;
      RoutePairCount(train, test, rs[..n], draws);
      var before := Route(train, test, rs[..n], draws);
      if draws[n] {
        StorePairs(before.0, rs[n]);
      } else {
        StorePairs(before.1, rs[n]);
      }
    }
  }

  /**
   * Loading into empty partitions holds no more than Limit(capacity)
   * (user, item) pairs in train and test together.
   */
  lemma LoadedPairsBounded(lines: seq<string>, capacity: int, draws: seq<bool>)
    requires |Accepted(lines, capacity)| <= |draws|
    ensures |Pairs(Route(map[], map[], Accepted(lines, capacity), draws).0)|
          + |Pairs(Route(map[], map[], Accepted(lines, capacity), draws).1)| <= Limit(capacity)
  {
    RoutePairCount(map[], map[], Accepted(lines, capacity), draws);
    assert Pairs(map[]) == {};
  }

  /**
   * The partitions are not disjoint: an input that lists the same item
   * twice for a user can place that pair in both of them.
   */
  lemma DuplicateEntryInBoth()
    ensures var parts := Route(map[], map[], [Record("u", "i"), Record("u", "i")], [true, false]);
      Holds(parts.0, "u", "i") && Holds(parts.1, "u", "i")
  {
    var rs := [Record("u", "i"), Record("u", "i")];
    assert rs[..1] == [Record("u", "i")];
    assert rs[..1][..0] == [];
  }

  // ---------------------------------------------------------------------
  // What is read from a line

  /**
   * `r` is a record line `line` can yield: its user is the text before the
   * first `:` and its item the first `,`-field of a `;`-entry of the second
   * `:`-field that has at least three `,`-fields.
   */
  predicate ReadFrom(line: string, r: Record) {
    var data := Split(Strip(line), ':');
    |data| >= 2 && r.user == data[0] &&
    exists e :: e in Split(data[1], ';') && |Split(e, ',')| >= 3 && r.item == Split(e, ',')[0]
  }

  /** A line without `:` yields nothing; every record of a line is read from it as ReadFrom says. */
  lemma LineRecordsShape(line: string)
    ensures ':' !in Strip(line) ==> LineRecords(line) == []
    ensures forall r :: r in LineRecords(line) ==> ReadFrom(line, r)
  {
    SplitCount(Strip(line), ':');
    var data := Split(Strip(line), ':');
    if |data| >= 2 {
      var entries := Split(data[1], ';');
      assert LineRecords(line) == EntriesRecords(data[0], entries);
      EntriesRecordsShape(data[0], entries);
    } else {
      assert LineRecords(line) == [];
    }
  }

  lemma {:induction false} EntriesRecordsShape(user: string, entries: seq<string>)
    ensures forall r :: r in EntriesRecords(user, entries) ==>
      r.user == user && exists e :: e in entries && |Split(e, ',')| >= 3 && r.item == Split(e, ',')[0]
  {
    if entries != [] {
      var n := |entries| - 1;
      EntriesRecordsShape(user, entries[..n]);
      forall r | r in EntriesRecords(user, entries)
        ensures r.user == user && exists e :: e in entries && |Split(e, ',')| >= 3 && r.item == Split(e, ',')[0]
      {
        if r in EntriesRecords(user, entries[..n]) {
          var e :| e in entries[..n] && |Split(e, ',')| >= 3 && r.item == Split(e, ',')[0];
          assert e in entries;
        } else {
          assert entries[n] in entries;
        }
      }
    }
  }

  // ---------------------------------------------------------------------
  // Prefixes: what the loader has read so far

  lemma {:induction false} ConcatMapPrefix<A, B>(xs: seq<A>, f: A -> seq<B>, i: nat)
    requires i <= |xs|
    ensures ConcatMap(xs[..i], f) <= ConcatMap(xs, f)
    decreases |xs|
  {
    if i < |xs| {
      var n := |xs| - 1;
      assert xs[..n][..i] == xs[..i];
      ConcatMapPrefix(xs[..n], f, i);
    } else {
      assert xs[..i] == xs;
    }
  }

  lemma ConcatMapStep<A, B>(xs: seq<A>, f: A -> seq<B>, i: nat)
    requires i < |xs|
    ensures ConcatMap(xs[..i + 1], f) == ConcatMap(xs[..i], f) + f(xs[i])
  {
    assert xs[..i + 1][..i] == xs[..i];
  }

  lemma {:induction false} ConcatMapAppend<A, B>(xs: seq<A>, ys: seq<A>, f: A -> seq<B>)
    ensures ConcatMap(xs + ys, f) == ConcatMap(xs, f) + ConcatMap(ys, f)
    decreases |ys|
  {
    if ys == [] {
      assert xs + ys == xs;
    } else {
      var n := |ys| - 1;
      ConcatMapAppend(xs, ys[..n], f);
      assert (xs + ys)[..|xs + ys| - 1] == xs + ys[..n];
    }
  }

  /**
   * Once the accepted records reach the capacity, lines further on are not
   * read: appending lines changes nothing that is loaded.
   */
  lemma LaterLinesIgnored(lines: seq<string>, more: seq<string>, capacity: int)
    requires |Records(lines)| >= Limit(capacity)
    ensures Accepted(lines + more, capacity) == Accepted(lines, capacity)
  {
    ConcatMapAppend(lines, more, LineRecords);
    var k := Limit(capacity);
    assert (Records(lines) + Records(more))[..k] == Records(lines)[..k];
  }

  // ---------------------------------------------------------------------
  // Steps of the loader's loops

  /** Storing one more record touches the partition its draw picks. */
  lemma RouteAppend(train: Partition, test: Partition, rs: seq<Record>, r: Record, draws: seq<bool>)
    requires |rs| < |draws|
    ensures var before := Route(train, test, rs, draws);
      Route(train, test, rs + [r], draws)
      == if draws[|rs|] then (Store(before.0, r), before.1) else (before.0, Store(before.1, r))
  {
    assert (rs + [r])[..|rs|] == rs;
  }

  /** One more line read: its records follow those of the earlier lines, within all records. */
  lemma LineStep(lines: seq<string>, i: nat)
    requires i < |lines|
    ensures Records(lines[..i + 1]) == Records(lines[..i]) + LineRecords(lines[i])
    ensures Records(lines[..i + 1]) <= Records(lines)
  {
    ConcatMapStep(lines, LineRecords, i);
    ConcatMapPrefix(lines, LineRecords, i + 1);
  }

  /** One more item entry read: its records follow those of the earlier entries, within the line's. */
  lemma EntryStep(user: string, entries: seq<string>, j: nat)
    requires j < |entries|
    ensures EntriesRecords(user, entries[..j + 1]) == EntriesRecords(user, entries[..j]) + EntryRecords(user, entries[j])
    ensures EntriesRecords(user, entries[..j + 1]) <= EntriesRecords(user, entries)
  {
    ConcatMapStep(entries, EntryRecordsOf(user), j);
    ConcatMapPrefix(entries, EntryRecordsOf(user), j + 1);
  }

  /** The records of a line that has two `:`-fields are those of its item entries. */
  lemma LineEntries(line: string)
    ensures var data := Split(Strip(line), ':');
      LineRecords(line) == if |data| < 2 then [] else EntriesRecords(data[0], Split(data[1], ';'))
  {
  }

  /** A prefix of length `n` is what Take keeps. */
  lemma TakePrefix(a: seq<Record>, b: seq<Record>, n: nat)
    requires a <= b && |a| == n
    ensures Take(b, n) == a
  {
  }

  /**
   * Reading `b` after `a`, both within `all`, and storing records until
   * `limit` are stored in all: that stores the first records Take(all,
   * limit) keeps, and all of them once the limit is reached.
   */
  lemma TakeSplit(a: seq<Record>, b: seq<Record>, all: seq<Record>, limit: nat)
    requires a + b <= all && |a| < limit
    ensures a + Take(b, limit - |a|) <= Take(all, limit)
    ensures |a| + |b| >= limit ==> a + Take(b, limit - |a|) == Take(all, limit)
  {
    var t := a + Take(b, limit - |a|);
    assert t <= a + b;
    if |a| + |b| >= limit {
      assert |t| == limit;
    }
  }

  /** When fewer records than the limit were read in all, Take keeps all of them. */
  lemma TakeAll(all: seq<Record>, limit: nat)
    requires |all| < limit
    ensures Take(all, limit) == all
  {
  }

  /** While the limit is not reached, a well-formed entry's record is among those Take keeps. */
  lemma EntryKept(user: string, entries: seq<string>, j: nat, read0: seq<Record>, limit: nat)
    requires j < |entries| && |Split(entries[j], ',')| >= 3
    requires |read0| + |EntriesRecords(user, entries[..j])| < limit
    ensures read0 + EntriesRecords(user, entries[..j + 1])
         == (read0 + EntriesRecords(user, entries[..j])) + [Record(user, Split(entries[j], ',')[0])]
    ensures |read0| + |EntriesRecords(user, entries[..j])| < |read0| + |Take(EntriesRecords(user, entries), limit - |read0|)|
  {
    EntryStep(user, entries, j);
  }

  /** An entry without a record changes nothing. */
  lemma EntrySkipped(user: string, entries: seq<string>, j: nat, read0: seq<Record>)
    requires j < |entries| && |Split(entries[j], ',')| < 3
    ensures read0 + EntriesRecords(user, entries[..j + 1]) == read0 + EntriesRecords(user, entries[..j])
  {
    EntryStep(user, entries, j);
  }

  /** The entry whose record reaches the limit ends what Take keeps of the line. */
  lemma EntryReaches(user: string, entries: seq<string>, j: nat, read0: seq<Record>, limit: nat)
    requires j < |entries| && |read0| < limit
    requires |read0| + |EntriesRecords(user, entries[..j + 1])| == limit
    ensures read0 + Take(EntriesRecords(user, entries), limit - |read0|) == read0 + EntriesRecords(user, entries[..j + 1])
    ensures |read0| + |EntriesRecords(user, entries)| >= limit
  {
    EntryStep(user, entries, j);
    TakePrefix(EntriesRecords(user, entries[..j + 1]), EntriesRecords(user, entries), limit - |read0|);
  }

  /** Past the last entry without reaching the limit, Take keeps every record of the line. */
  lemma EntriesDone(user: string, entries: seq<string>, read0: seq<Record>, limit: nat)
    requires |read0| + |EntriesRecords(user, entries[..|entries|])| < limit
    ensures read0 + Take(EntriesRecords(user, entries), limit - |read0|) == read0 + EntriesRecords(user, entries[..|entries|])
    ensures |read0| + |EntriesRecords(user, entries)| < limit
  {
    assert entries[..|entries|] == entries;
  }
}
