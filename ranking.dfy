/**
 * `sorted(d.items(), key=itemgetter(1), reverse=True)[:k]`, the idiom
 * `recommend` uses twice: the k best-scored entries of a dictionary, best
 * first. Python breaks ties by the dictionary's insertion order, which the
 * model does not keep, so the result is specified as a relation that any
 * ordering of equal scores satisfies.
 */
module Ranking {

  /** The keys of a ranked list. */
  function KeysOf(top: seq<(string, real)>): set<string> {
    set i | 0 <= i < |top| :: top[i].0
  }

  /** No key occurs twice. */
  predicate Distinct(top: seq<(string, real)>) {
    forall i, j :: 0 <= i < j < |top| ==> top[i].0 != top[j].0
  }

  /** Scores never increase along the list. */
  predicate Descending(top: seq<(string, real)>) {
    forall i, j :: 0 <= i < j < |top| ==> top[i].1 >= top[j].1
  }

  /**
   * `top` is `sorted(scores.items(), key=itemgetter(1), reverse=True)[:k]`
   * up to the order of equal scores: min(k, |scores|) distinct entries of
   * `scores` with their own scores, best first, and no entry left out
   * scores higher than one kept.
   */
  predicate IsTop(scores: map<string, real>, k: nat, top: seq<(string, real)>) {
    |top| == (if k <= |scores| then k else |scores|)
    && (forall i :: 0 <= i < |top| ==> top[i].0 in scores && scores[top[i].0] == top[i].1)
    && Distinct(top)
    && Descending(top)
    && (forall x, i :: x in scores && x !in KeysOf(top) && 0 <= i < |top| ==> scores[x] <= top[i].1)
  }

  lemma KeysOfAppend(top: seq<(string, real)>, e: (string, real))
    ensures KeysOf(top + [e]) == KeysOf(top) + {e.0}
  {
    var t := top + [e];
    assert t[|top|] == e;
    forall x | x in KeysOf(top) ensures x in KeysOf(t) {
      var i :| 0 <= i < |top| && top[i].0 == x;
      assert t[i] == top[i];
    }
  }

  /** A key with the highest score among `among`. */
  method ArgMax(scores: map<string, real>, among: set<string>) returns (best: string)
    requires among != {} && among <= scores.Keys
    ensures best in among
    ensures forall x :: x in among ==> scores[x] <= scores[best]
  {
    best :| best in among;
    var todo := among - {best};
    while todo != {}
      invariant todo <= among && best in among
      invariant forall x :: x in among && x !in todo ==> scores[x] <= scores[best]
      decreases todo
    {
      var x :| x in todo;
      if scores[x] > scores[best] {
        best := x;
      }
      todo := todo - {x};
    }
  }

  /**
   * What the selection loop keeps: `top` holds distinct entries of `scores`
   * best first, `rest` the keys not yet taken, none of which beats a key taken.
   */
  predicate Picked(scores: map<string, real>, top: seq<(string, real)>, rest: set<string>) {
    rest == scores.Keys - KeysOf(top)
    && |rest| + |top| == |scores|
    && (forall i :: 0 <= i < |top| ==> top[i].0 in scores && scores[top[i].0] == top[i].1)
    && Distinct(top)
    && Descending(top)
    && (forall x, i :: x in rest && 0 <= i < |top| ==> scores[x] <= top[i].1)
  }

  lemma PickStep(scores: map<string, real>, top: seq<(string, real)>, rest: set<string>, best: string)
    requires Picked(scores, top, rest)
    requires best in rest && forall x :: x in rest ==> scores[x] <= scores[best]
    ensures Picked(scores, top + [(best, scores[best])], rest - {best})
  {
    var e := (best, scores[best]);
    var t := top + [e];
    KeysOfAppend(top, e);
    assert |rest - {best}| == |rest| - 1;
    PickOrder(scores, top, rest, e);
    forall x, i | x in rest - {best} && 0 <= i < |t| ensures scores[x] <= t[i].1 {
      if i < |top| {
        assert t[i] == top[i];
      }
    }
  }

  lemma PickOrder(scores: map<string, real>, top: seq<(string, real)>, rest: set<string>, e: (string, real))
    requires Picked(scores, top, rest) && e.0 in rest && e.1 == scores[e.0]
    ensures Distinct(top + [e]) && Descending(top + [e])
    ensures forall i :: 0 <= i < |top + [e]| ==> (top + [e])[i].0 in scores && scores[(top + [e])[i].0] == (top + [e])[i].1
  {
    var t := top + [e];
    forall i, j | 0 <= i < j < |t| ensures t[i].0 != t[j].0 && t[i].1 >= t[j].1 {
      assert t[i] == top[i];
      if j < |top| {
        assert t[j] == top[j];
      } else {
        assert top[i].0 in KeysOf(top);
      }
    }
  }

  lemma PickDone(scores: map<string, real>, k: nat, top: seq<(string, real)>, rest: set<string>)
    requires Picked(scores, top, rest) && |top| <= k
    requires |top| == k || rest == {}
    ensures IsTop(scores, k, top)
  {
  }

  /** The k best entries of `scores`, best first, drawn one at a time. */
  method SelectTop(scores: map<string, real>, k: nat) returns (top: seq<(string, real)>)
    ensures IsTop(scores, k, top)
  {
    top := [];
    var rest := scores.Keys;
    while |top| < k && rest != {}
      invariant Picked(scores, top, rest) && |top| <= k
      decreases k - |top|
    {
      var best := ArgMax(scores, rest);
      PickStep(scores, top, rest, best);
      top := top + [(best, scores[best])];
      rest := rest - {best};
    }
    PickDone(scores, k, top, rest);
  }

  /** When k reaches the number of entries, every entry is kept. */
  lemma TopKeepsAll(scores: map<string, real>, k: nat, top: seq<(string, real)>)
    requires IsTop(scores, k, top) && k >= |scores|
    ensures KeysOf(top) == scores.Keys
  {
    DistinctKeys(top);
    assert KeysOf(top) <= scores.Keys;
    if KeysOf(top) != scores.Keys {
      SubsetSmaller(KeysOf(top), scores.Keys);
      assert false;
    }
  }

  /** The first entry kept has the highest score of all. */
  lemma TopFirstIsBest(scores: map<string, real>, k: nat, top: seq<(string, real)>)
    requires IsTop(scores, k, top) && |top| > 0
    ensures forall x :: x in scores ==> scores[x] <= top[0].1
  {
    forall x | x in scores ensures scores[x] <= top[0].1 {
      if x in KeysOf(top) {
        var i :| 0 <= i < |top| && top[i].0 == x;
        assert i == 0 || top[0].1 >= top[i].1;
      }
    }
  }

  /** A list without repeated keys has as many keys as entries. */
  lemma {:induction false} DistinctKeys(top: seq<(string, real)>)
    requires Distinct(top)
    ensures |KeysOf(top)| == |top|
  {
    if top != [] {
      var n := |top| - 1;
      var init := top[..n];
      assert Distinct(init);
      DistinctKeys(init);
      assert top == init + [top[n]];
      KeysOfAppend(init, top[n]);
      assert top[n].0 !in KeysOf(init);
    }
  }

  lemma SubsetSmaller(a: set<string>, b: set<string>)
    requires a <= b && a != b
    ensures |a| < |b|
  {
    var x :| x in b && x !in a;
    assert b == a + (b - a) && a * (b - a) == {};
    assert x in b - a;
  }
}
