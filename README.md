# User-based collaborative filtering, modelled in Dafny

This project models the `UserCF` recommender of `cf/user_cf.py`: the whole
path from a ratings file to precision, recall and coverage.

- **Loading** reads `user:item,rating,timestamp;item,rating,timestamp;...`
  lines. Every item entry with at least three `,`-fields yields a (user,
  item) record. A random draw per record stores it, with the implicit
  rating 1.0, in the train or the test partition. Loading stops once the
  capacity is reached.
- **Similarity** builds the popularity of each item and the inverted index
  (item -> users who rated it). For each item, `1 / log(1 + popularity)`
  is added to every ordered pair of distinct co-raters. At the end every
  score is divided by `sqrt(|items(u)| * |items(v)|)`.
- **Recommendation** takes the K = 20 most similar users. For each item
  they rated that the user has not watched, it adds `similarity * rating`.
  It returns the N = 10 best-scored items.
- **Evaluation** runs `recommend` for every train user. It counts hits
  against the user's test items, the number of recommendations and of test
  items, and the distinct recommended items. It then divides.

Modules follow the steps of the program:

| file | module | what it holds |
|---|---|---|
| `text.dfy` | `Text` | `str.strip()` and `str.split(sep)` |
| `loading.dfy` | `Loading` | the records a file yields, the capacity cut-off, where the records are stored |
| `similarity.dfy` | `Similarity` | the popularity count, the inverted index, the accumulation and normalisation loops, what the matrix holds |
| `ranking.dfy` | `Ranking` | `sorted(d.items(), key=itemgetter(1), reverse=True)[:k]` |
| `recommending.dfy` | `Recommending` | the rank loop of `recommend` and what a recommendation is |
| `evaluating.dfy` | `Evaluating` | the counters and the three ratios of `evaluate` |
| `user_cf.dfy` | `UserCf` | class `UserCF`: its fields and the methods of the source |

The class keeps the source's state as fields: `trainSet`, `testSet`,
`userSimMatrix` and `movieCount`. The constants K, N and the capacity are
fields too. Each method of the class is proved against a specification
function of its inputs and of the old state:
- `Route` over the `Accepted` records, for loading;
- `Similarities`, for the similarity matrix;
- the `Recommendation` relation, for `recommend`;
- `Scores` of the `Tallied` counters, for `evaluate`.

Lemmas then state what those functions mean.

The source takes some things from its environment; these are parameters
of the model:
- the lines of the input file;
- the outcomes of `random.random() < pivot`, one boolean per stored record;
- the two numeric functions:
  - `weight(p)`, standing for `1 / np.log(1.0 + p)`;
  - `root(n)`, standing for `math.sqrt(n)`, which is only required to be
    positive on positive arguments.

Scores are `real`s with exact arithmetic.

### Behaviour of the source worth knowing

- **Shared pairs.** The two partitions are not disjoint per (user, item)
  pair. An input line that lists the same item twice can store the pair
  once in each partition (`Loading.DuplicateEntryInBoth`).
- **Division by zero.** When `rec_count`, `test_count` or `movie_count` is
  zero, `evaluate` raises ZeroDivisionError; it does not return 0.0. The
  model returns `Failure("float division by zero")`
  (`Evaluating.ScoresBounds`).
- **Reruns accumulate.** `calc_user_sim` does not clear `user_sim_matrix`,
  so running it twice is not running it once. Every shared-item score grows
  on the second run (`Similarity.RerunNotIdempotent`). What every run keeps
  is proved too: after any number of runs, and of loads in between, no user
  is in its own row, every entry has its mirror with the same score, and
  every entry joins two users who share a train item. Right after a run,
  every pair of distinct users who share one has an entry
  (`Similarity.SimilaritiesKeep`, `UserCf.UserCF.CalcUserSim`).
- **Capacity.** The capacity is compared only after a record is stored, so
  at least one record is loaded even for a capacity of 0 or less
  (`Loading.Limit`, `Loading.Accepted`).

## Model

| member | source | states |
|---|---|---|
| Text.TrimStartShape | cf/user_cf.py:51 | the leading white-space cut leaves a suffix of the line; what it cut is white space; the result does not start with white space |
| Text.TrimEndShape | cf/user_cf.py:51 | the trailing white-space cut leaves a prefix; what it cut is white space; the result does not end with white space |
| Text.Strip | cf/user_cf.py:51 | `line.strip()`: the line without its leading and trailing white space (its properties are the Strip lemmas below) |
| Text.StripSlice | cf/user_cf.py:51 | `line.strip()` is a contiguous slice of the line |
| Text.StripSurround | cf/user_cf.py:51 | only white space lies before and after that slice |
| Text.StripEnds | cf/user_cf.py:51 | a non-empty stripped line neither starts nor ends with white space |
| Text.StripShape | cf/user_cf.py:51 | strip removes exactly the white space at both ends |
| Text.StripIdempotent | cf/user_cf.py:51 | stripping twice equals stripping once |
| Text.Split | cf/user_cf.py:51-58 | `s.split(sep)` has at least one field and no field contains the separator |
| Text.JoinSplit | cf/user_cf.py:51-58 | joining the fields of a split with the separator gives back the string |
| Text.SplitJoin | cf/user_cf.py:51-58 | splitting a join of separator-free fields gives back the fields |
| Text.SplitPrefix | cf/user_cf.py:51-58 | a separator-free prefix only extends the first field |
| Text.SplitCount | cf/user_cf.py:51-53 | a line has two or more `:`-fields exactly when it contains `:`, so lines without `:` are skipped |
| Loading.Accepted | cf/user_cf.py:44-72 | the loader keeps a prefix of the records in input order; at most max(capacity, 1) of them; all of them when fewer were read |
| Loading.Limit | cf/user_cf.py:69-72 | how many records the loader keeps at most: the capacity, or 1 when the capacity is below 1 |
| Loading.EntryRecords | cf/user_cf.py:58-61 | the record of one `;`-entry: (user, first `,`-field), none when it has fewer than three fields |
| Loading.LineRecords | cf/user_cf.py:51-61 | the records of one line, in order: none when the stripped line has no `:` |
| Loading.Store | cf/user_cf.py:64-65 | a partition with the rating 1.0 set for (user, item), the row created when missing |
| Loading.Route | cf/user_cf.py:63-68 | train and test after storing the records in order, each where its draw says |
| Loading.LineRecordsShape | cf/user_cf.py:51-61 | a stripped line without `:` yields no record; every record's user is the text before the first `:`; its item is the first `,`-field of a `;`-entry with at least three `,`-fields |
| Loading.EntriesRecordsShape | cf/user_cf.py:56-61 | every record of a line carries the line's user and the first field of one of its well-formed entries |
| Loading.LaterLinesIgnored | cf/user_cf.py:48-50 | once the capacity is reached, appending lines to the input changes nothing that is stored |
| Loading.StoreHolds | cf/user_cf.py:63-68 | `setdefault(user, {})[item] = 1.0` adds exactly the pair (user, item) |
| Loading.StorePairs | cf/user_cf.py:64-65 | storing a record adds its (user, item) pair to the partition's pairs and no other |
| Loading.StoreGrows | cf/user_cf.py:64-65 | storing a record keeps every user and item already stored |
| Loading.RouteContents | cf/user_cf.py:63-68 | a pair is in train after loading iff it was there before or some record for it drew "train"; likewise for test with "test" |
| Loading.RouteRatings | cf/user_cf.py:63-68 | every rating stored is 1.0 |
| Loading.RouteUsers | cf/user_cf.py:63-68 | loading only extends the partitions: no user or item disappears, and every added user has an item |
| Loading.RoutePairCount | cf/user_cf.py:63-69 | each stored record adds at most one (user, item) pair to train and test together |
| Loading.LoadedPairsBounded | cf/user_cf.py:44-72 | loading into empty partitions stores at most max(capacity, 1) pairs in total |
| Loading.DuplicateEntryInBoth | cf/user_cf.py:63-68 | the same pair listed twice with the draws (train, test) lands in both partitions |
| Loading.LineStep | cf/user_cf.py:48-56 | one more line read appends that line's records, and the result stays a prefix of all records |
| Loading.EntryStep | cf/user_cf.py:57-61 | one more entry read appends that entry's records, within the line's |
| Loading.TakeSplit | cf/user_cf.py:69-72 | storing a line's records up to the limit extends what the loader keeps overall, and completes it once the limit is reached |
| Loading.EntryKept | cf/user_cf.py:57-69 | below the limit, a well-formed entry adds its record and a draw is still available for it |
| Loading.EntrySkipped | cf/user_cf.py:59-60 | an entry with fewer than three fields adds nothing |
| Loading.EntryReaches | cf/user_cf.py:69-72 | the entry whose record reaches the limit ends what is kept of the line |
| Loading.EntriesDone | cf/user_cf.py:57-72 | a line finished below the limit is kept whole |
| Similarity.CountItems | cf/user_cf.py:77-80 | the inner popularity loop adds 1 to each item of one user, starting from 0 for new items |
| Similarity.Popularity | cf/user_cf.py:75-80 | `movie_popular`: for each train item, the number of train users who rated it |
| Similarity.InvertedIndex | cf/user_cf.py:82-87 | `movie_user`: for each train item, the set of train users who rated it |
| Similarity.CountPopularity | cf/user_cf.py:75-80 | `movie_popular[m]` is the number of train users who rated `m`, for exactly the train items |
| Similarity.AddRater | cf/user_cf.py:84-87 | the inner index loop adds the user to the set of each of its items, from the empty set for new items |
| Similarity.BuildMovieUsers | cf/user_cf.py:82-87 | `movie_user[m]` is the set of train users who rated `m`, for exactly the train items |
| Similarity.IndexSize | cf/user_cf.py:89 | `len(movie_user)` is the number of distinct train items |
| Similarity.IndexCoItems | cf/user_cf.py:82-98 | the items for which the index lists both `u` and `v` are the items both rated |
| Similarity.IndexUsersInTrain | cf/user_cf.py:82-87 | every user the index lists is a train user with at least one item |
| Similarity.AddEntry | cf/user_cf.py:93-98 | one step of the innermost loop: `sim[u][v] += wt` from 0, skipped when `v == u` |
| Similarity.AddToRow | cf/user_cf.py:93-98 | the innermost loop adds `wt` to row `u` for every other co-rater; the row is created only when there is one |
| Similarity.AddCoRater | cf/user_cf.py:92-98 | one step of the middle loop: one more co-rater's row is updated |
| Similarity.AddCoRaters | cf/user_cf.py:92-98 | the two inner loops add `wt` to every ordered pair of distinct co-raters of one item |
| Similarity.AddPairsPoint | cf/user_cf.py:92-98 | the two inner loops for one item: which rows and entries exist after them, and every score |
| Similarity.AccumulateItem | cf/user_cf.py:91-98 | one step of the outer accumulation loop takes one more item into account |
| Similarity.Accumulate | cf/user_cf.py:91-98 | the accumulation loop leaves the Accumulated matrix, whatever the order of the items |
| Similarity.AccumulatedStep | cf/user_cf.py:91-98 | accumulating one more item adds its weight to every pair of its co-raters |
| Similarity.AccumulatedRow | cf/user_cf.py:91-98 | a row exists for each old row and each user sharing an item with someone else; its entries are the old ones plus those partners |
| Similarity.AccumulatedCell | cf/user_cf.py:91-98 | every accumulated score is the old score plus, for `u != v`, the summed weights of the items both rated |
| Similarity.AccumulatedOverTrain | cf/user_cf.py:91-98 | accumulation over the train index mentions only train users with items |
| Similarity.Accumulated | cf/user_cf.py:91-98 | the matrix after the accumulation loop: the old entries plus one for each pair of distinct co-raters, with the summed item weights added |
| Similarity.Normalized | cf/user_cf.py:100-103 | the matrix after the normalisation loop: the same entries, each divided by its pair's denominator |
| Similarity.Similarities | cf/user_cf.py:74-103 | the matrix `calc_user_sim` leaves: accumulation on top of the old matrix, then normalisation |
| Similarity.Denominator | cf/user_cf.py:103 | `sqrt(len(train[u]) * len(train[v]))` is positive for train users with items, so the division never fails |
| Similarity.DenominatorSymmetric | cf/user_cf.py:103 | the denominator of (u, v) equals that of (v, u) |
| Similarity.ScaleEntry | cf/user_cf.py:101-103 | one step of the inner normalisation loop divides one more score |
| Similarity.ScaleRow | cf/user_cf.py:101-103 | the inner normalisation loop divides every score of row `u` by its pair's denominator |
| Similarity.ScaleRowOf | cf/user_cf.py:100-103 | one step of the outer normalisation loop scales one more row |
| Similarity.Normalize | cf/user_cf.py:100-103 | the normalisation loop leaves the Normalized matrix |
| Similarity.NormalizedOverTrain | cf/user_cf.py:100-103 | normalisation keeps the matrix over train users with items |
| Similarity.ScaledRowUndo | cf/user_cf.py:101-103 | a scaled score times the denominator of its pair is the score before scaling |
| Similarity.NormalizedUndo | cf/user_cf.py:100-103 | normalisation keeps every entry, and sim(u, v) * Denominator(u, v) is the accumulated score, so nothing is lost |
| Similarity.OverTrainGrows | cf/user_cf.py:57-72 | loading more ratings keeps the matrix mentioning train users only |
| Similarity.SimilaritiesPhases | cf/user_cf.py:91-103 | accumulation then normalisation is Similarities, which again mentions only train users |
| Similarity.Build | cf/user_cf.py:74-103 | `calc_user_sim` on the field values: movie_count = number of train items; the matrix is Similarities of the old matrix |
| Similarity.RawScore | cf/user_cf.py:91-98 | from an empty matrix, the raw score of distinct users is the summed `weight(popularity)` over the items they share |
| Similarity.RawEntries | cf/user_cf.py:91-98 | from an empty matrix, a raw entry (u, v) exists iff u != v and they share an item |
| Similarity.SimilarityEntries | cf/user_cf.py:74-103 | from an empty matrix, `v` is in the row of `u` exactly when they are distinct and share a train item; the relation is symmetric |
| Similarity.NoSelfSimilarity | cf/user_cf.py:94-95 | from an empty matrix, no user appears in its own row |
| Similarity.SimilarityScore | cf/user_cf.py:74-103 | from an empty matrix, every score is the summed shared-item weight over `root(len(train[u]) * len(train[v]))` |
| Similarity.SimilaritySymmetric | cf/user_cf.py:74-103 | from an empty matrix, sim[u][v] == sim[v][u] |
| Similarity.RelatedGrows | cf/user_cf.py:57-72 | loading more ratings keeps every entry of the matrix a pair of users who share a train item |
| Similarity.AccumulatedPair | cf/user_cf.py:91-98 | over a symmetric base without self-entries, an accumulated entry joins two different users who share an item, and its mirror has the same score |
| Similarity.AccumulatedComplete | cf/user_cf.py:91-98 | whatever the base, every pair of distinct users who share an item gets an accumulated entry |
| Similarity.AccumulatedKeeps | cf/user_cf.py:91-98 | accumulation keeps no self-entries, symmetry and shared-item entries, and adds every shared-item pair |
| Similarity.NormalizedKeeps | cf/user_cf.py:100-103 | normalisation keeps no self-entries, symmetry in entries and scores, and the shared-item entries |
| Similarity.SimilaritiesKeep | cf/user_cf.py:74-103 | on any earlier matrix that kept them, a run leaves no self-entry, sim(u, v) == sim(v, u), and an entry exactly for the older entries and the distinct pairs who share a train item |
| Similarity.RerunAddsOnTop | cf/user_cf.py:91-98 | an existing entry keeps its old score and gets the shared-item weights added |
| Similarity.RerunScore | cf/user_cf.py:100-103 | the rerun then divides that sum by the pair's denominator once more |
| Similarity.FirstRun | cf/user_cf.py:74-103 | from an empty matrix, two distinct users who share an item get a score: their positive shared weight over their denominator |
| Similarity.RerunNotIdempotent | cf/user_cf.py:74-103 | with positive weights, a second run strictly raises the score of every pair of distinct users who share an item |
| Similarity.WeightsPositive | cf/user_cf.py:98 | with positive item weights, a non-empty set of train items has a positive weight sum |
| Ranking.ArgMax | cf/user_cf.py:114 | finds a remaining key with the highest score |
| Ranking.PickStep | cf/user_cf.py:114 | taking the best remaining key keeps the selection distinct, best first, and unbeaten by what is left |
| Ranking.PickOrder | cf/user_cf.py:114 | appending the best remaining entry keeps the list distinct, best first, with every score taken from the dictionary |
| Ranking.PickDone | cf/user_cf.py:114 | stopping at `k` entries or when none is left gives the top `k` |
| Ranking.SelectTop | cf/user_cf.py:114 | returns min(k, size) distinct entries of the dictionary with their scores, best first; no entry left out beats one kept |
| Ranking.TopKeepsAll | cf/user_cf.py:122 | when `k` is at least the dictionary's size, every key is returned |
| Ranking.TopFirstIsBest | cf/user_cf.py:114 | the first entry returned has the highest score of all |
| Ranking.DistinctKeys | cf/user_cf.py:122 | a list without repeated keys has as many keys as entries |
| Recommending.NeighboursInTrain | cf/user_cf.py:114-116 | the neighbours chosen from a train-only matrix are train users, so `train_set[v]` never fails |
| Recommending.AddRated | cf/user_cf.py:116-120 | the inner loop adds `wuv * rating` to every unwatched item the neighbour rated, from 0 |
| Recommending.AddNeighbourUpdate | cf/user_cf.py:117-120 | one more rated item changes at most its own rank entry |
| Recommending.ReachedStep | cf/user_cf.py:116-120 | one step of the inner loop: a watched item is skipped, an unwatched one gains `wuv * rating` |
| Recommending.AccumulateRank | cf/user_cf.py:115-120 | the outer loop over the neighbours leaves Rank of the neighbours |
| Recommending.Rank | cf/user_cf.py:115-120 | the `rank` dictionary once the given neighbours have had their turn, in order |
| Recommending.RankMeaning | cf/user_cf.py:115-120 | an item is ranked iff the user has not watched it and some neighbour rated it; its rank is the sum of `similarity * rating` over those neighbours |
| Recommending.ScoreUnrated | cf/user_cf.py:115-120 | an item no neighbour rated scores 0 |
| Recommending.ScoreIsSupport | cf/user_cf.py:116-120 | with the loader's ratings of 1.0, an item's rank is the summed similarity of the neighbours who rated it |
| Recommending.RecommendationShape | cf/user_cf.py:105-122 | a recommendation has at most N distinct items, best first; each item was rated by some train user and not by the user; it is empty for a user outside train |
| Recommending.Recommendation | cf/user_cf.py:105-122 | what `recommend` may return: [] outside train or the matrix, otherwise a top N of the rank of a top K of the user's row |
| Evaluating.Ratio | cf/user_cf.py:141-143 | `x / (1.0 * y)` is non-negative, at most 1 when x <= y, and times y gives back x |
| Evaluating.Scores | cf/user_cf.py:141-146 | the (precision, recall, coverage) triple of the three divisions, or the division-by-zero failure |
| Evaluating.ScoresBounds | cf/user_cf.py:141-143 | the result is a failure exactly when rec_count, test_count or movie_count is 0; otherwise precision and recall lie in [0, 1] |
| Evaluating.CountHits | cf/user_cf.py:133-136 | the inner loop counts the recommended items that are test items and collects the recommended items |
| Evaluating.HitsCount | cf/user_cf.py:133-135 | without repeated items the hits are the recommended test items, no more than the recommendations or the test items |
| Evaluating.TestPairsAll | cf/user_cf.py:139 | when every test user is a train user, the test pairs counted are all the test pairs |
| Evaluating.TestCount | cf/user_cf.py:139 | test_count is the number of (user, item) test pairs of the train users |
| Evaluating.TallyBounds | cf/user_cf.py:129-139 | over the users: hits <= rec_count, hits <= test_count, rec_count <= N * users, test_count = test pairs |
| Evaluating.HitsStep | cf/user_cf.py:133-135 | one more user adds its hits to `hit` |
| Evaluating.CountStep | cf/user_cf.py:138 | one more user adds its list's length to rec_count |
| Evaluating.TestStep | cf/user_cf.py:139 | one more user adds its test items to test_count |
| Evaluating.RecommendedStep | cf/user_cf.py:136 | one more user adds its recommended items to all_rec_movies |
| Evaluating.HitsAdvance | cf/user_cf.py:129-135 | after one more loop turn, `hit` is the total over the users visited |
| Evaluating.CountAdvance | cf/user_cf.py:129-138 | after one more loop turn, rec_count is the total over the users visited |
| Evaluating.TestAdvance | cf/user_cf.py:129-139 | after one more loop turn, test_count is the total over the users visited |
| Evaluating.RecommendedAdvance | cf/user_cf.py:129-136 | after one more loop turn, all_rec_movies is the union over the users visited |
| UserCf.UserCF.constructor | cf/user_cf.py:26-36 | K = 20, N = 10, the given capacity (100000 by default), empty partitions and matrix, movie_count 0 |
| UserCf.UserCF.StoreRecord | cf/user_cf.py:63-68 | `setdefault` then `[item] = 1.0` on the partition chosen, leaving everything else unchanged |
| UserCf.UserCF.StoreDrawn | cf/user_cf.py:63-69 | the next record goes where its draw says; the partitions are Route of the records stored |
| UserCf.UserCF.LoadEntry | cf/user_cf.py:57-72 | one entry: stores its record if well-formed and says whether the capacity was reached |
| UserCf.UserCF.LoadEntries | cf/user_cf.py:57-72 | one line's entries: the records kept up to the limit, reach iff the limit was met within the line |
| UserCf.UserCF.LoadTrainTestSet | cf/user_cf.py:38-72 | the partitions become Route of the old partitions over the Accepted records and their draws; the matrix and movie_count are untouched |
| UserCf.UserCF.CalcUserSim | cf/user_cf.py:74-103 | the partitions are unchanged; movie_count is the number of train items; the matrix becomes Similarities of the old matrix, has an entry for every pair of distinct users who share a train item, and keeps the class invariant: no self-entry, symmetric entries and scores, only shared-item entries |
| UserCf.UserCF.Recommend | cf/user_cf.py:105-122 | returns [] for a user outside train or the matrix; otherwise the top N of the rank built from the top K neighbours |
| UserCf.UserCF.EvaluateUser | cf/user_cf.py:130-139 | one loop turn: a recommendation for the user, and the four counters advanced by what it yields |
| UserCf.UserCF.Evaluate | cf/user_cf.py:124-146 | every train user gets a recommendation; the result is Scores of the counters over all train users, a failure on a zero denominator |
| UserCf.EvaluateBounds | cf/user_cf.py:124-146 | hits <= rec_count and test_count; rec_count <= N * users; test_count = test pairs; only train items are recommended; precision, recall in [0, 1]; coverage too when movie_count counts the train items |

## Left out

- File access is not modelled. This covers `os.path.exists`, `exit(-1)`,
  `open` and reading the file. The lines are a parameter.
- `random.random()` and `pivot` are not modelled. Their outcomes are a
  parameter; the model requires one per stored record, which is as many
  as the source draws.
- `np.log` and `math.sqrt` are parameters (`weight`, `root`). Their values,
  and floating-point rounding in general, are not modelled. Scores are
  exact reals.
- `print`, `time`, matplotlib and the `__main__` driver are not modelled.
  They are I/O and plotting around the class.
- `user_ctnr` and `item_ctnr` (lines 46-47, 55, 62) are not modelled. They
  are filled and never read.
- The order of equal scores out of `sorted` is left open (Ranking.SelectTop,
  Ranking.IsTop). Python keeps dictionary insertion order for ties, which
  depends on the whole history of the dictionaries. The result is a
  relation that any order of equal scores satisfies.
- Iteration order over dictionaries is not modelled. The loops over
  partitions, the index and the matrix pick keys in any order; every result
  is proved independent of that order.
- `str.isspace` is modelled for the characters below U+0100 only (Text.IsSpace).
- Similarity.Build: the matrix is built as a value and assigned to the
  field, instead of being updated in place inside the object as Python
  does. No other object shares the matrix, so the final state is the same.
- cf/item_cf.py is not part of this model. It holds no code of the core.
