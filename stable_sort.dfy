/** A stable insertion sort of strings, descending by a key map: Python's `sorted(..., reverse=True)`. */
module StableSort {

  predicate AllKeyed(s: seq<string>, key: map<string, int>) {
    forall y :: y in s ==> y in key
  }

  predicate NonIncreasing(s: seq<string>, key: map<string, int>) {
    forall i, j :: 0 <= i < j < |s| ==> s[i] in key && s[j] in key && key[s[i]] >= key[s[j]]
  }

  /** The elements of `s` whose key is `v`, in their order in `s`. */
  function WithKey(s: seq<string>, key: map<string, int>, v: int): seq<string> {
    if s == [] then []
    else (if s[0] in key && key[s[0]] == v then [s[0]] else []) + WithKey(s[1..], key, v)
  }

  /** Put `x` in front of the first element whose key is not larger than its own. */
  function Insert(x: string, ys: seq<string>, key: map<string, int>): (r: seq<string>)
    requires x in key && AllKeyed(ys, key)
    ensures multiset(r) == multiset(ys) + multiset{x}
  {
    if ys == [] then [x]
    else if key[x] >= key[ys[0]] then [x] + ys
    else
      assert ys == [ys[0]] + ys[1..];
      [ys[0]] + Insert(x, ys[1..], key)
  }

  /** Insertion sort, descending by key. */
  function SortDesc(s: seq<string>, key: map<string, int>): (r: seq<string>)
    requires AllKeyed(s, key)
    ensures multiset(r) == multiset(s)
  {
    if s == [] then []
    else
      assert s == [s[0]] + s[1..];
      var rest := SortDesc(s[1..], key);
      assert forall y :: y in rest ==> y in multiset(s[1..]);
      Insert(s[0], rest, key)
  }

  /** A larger-or-equal element in front of a non-increasing sequence keeps it non-increasing. */
  lemma {:induction false} ConsNonIncreasing(y: string, tail: seq<string>, key: map<string, int>)
    requires y in key && NonIncreasing(tail, key)
    requires forall z :: z in tail ==> z in key && key[z] <= key[y]
    ensures NonIncreasing([y] + tail, key)
  {
    var r := [y] + tail;
    forall i, j | 0 <= i < j < |r| ensures r[i] in key && r[j] in key && key[r[i]] >= key[r[j]] {
      if i == 0 {
        assert r[j] == tail[j - 1];
      } else {
        assert r[i] == tail[i - 1] && r[j] == tail[j - 1];
      }
    }
  }

  lemma {:induction false} InsertNonIncreasing(x: string, ys: seq<string>, key: map<string, int>)
    requires x in key && AllKeyed(ys, key) && NonIncreasing(ys, key)
    ensures NonIncreasing(Insert(x, ys, key), key)
    decreases |ys|
  {
    if ys == [] {
    } else if key[x] >= key[ys[0]] {
      forall z | z in ys ensures z in key && key[z] <= key[x] {
        var k :| 0 <= k < |ys| && ys[k] == z;
        assert k == 0 || key[ys[0]] >= key[ys[k]];
      }
      ConsNonIncreasing(x, ys, key);
    } else {
      var tail := Insert(x, ys[1..], key);
      assert Insert(x, ys, key) == [ys[0]] + tail;
      assert NonIncreasing(ys[1..], key) by {
        forall i, j | 0 <= i < j < |ys[1..]| ensures ys[1..][i] in key && ys[1..][j] in key && key[ys[1..][i]] >= key[ys[1..][j]] {
          assert ys[1..][i] == ys[i + 1] && ys[1..][j] == ys[j + 1];
        }
      }
      InsertNonIncreasing(x, ys[1..], key);
      forall z | z in tail ensures z in key && key[z] <= key[ys[0]] {
        assert z in multiset(tail);
        if z != x {
          var k :| 0 <= k < |ys[1..]| && ys[1..][k] == z;
          assert ys[1..][k] == ys[k + 1];
        }
      }
      ConsNonIncreasing(ys[0], tail, key);
    }
  }

  lemma {:induction false} WithKeyCons(y: string, ys: seq<string>, key: map<string, int>, v: int)
    ensures WithKey([y] + ys, key, v) == (if y in key && key[y] == v then [y] else []) + WithKey(ys, key, v)
  {
    assert ([y] + ys)[0] == y;
    assert ([y] + ys)[1..] == ys;
  }

  lemma {:induction false} InsertWithKey(x: string, ys: seq<string>, key: map<string, int>, v: int)
    requires x in key && AllKeyed(ys, key)
    ensures WithKey(Insert(x, ys, key), key, v) == (if key[x] == v then [x] else []) + WithKey(ys, key, v)
    decreases |ys|
  {
    if ys == [] {
      WithKeyCons(x, [], key, v);
    } else if key[x] >= key[ys[0]] {
      WithKeyCons(x, ys, key, v);
    } else {
      var tail := Insert(x, ys[1..], key);
      assert Insert(x, ys, key) == [ys[0]] + tail;
      InsertWithKey(x, ys[1..], key, v);
      WithKeyBehindLarger(x, ys, tail, key, v);
    }
  }

  lemma {:induction false} WithKeyBehindLarger(x: string, ys: seq<string>, tail: seq<string>, key: map<string, int>, v: int)
    requires ys != [] && x in key && ys[0] in key && key[x] < key[ys[0]]
    requires WithKey(tail, key, v) == (if key[x] == v then [x] else []) + WithKey(ys[1..], key, v)
    ensures WithKey([ys[0]] + tail, key, v) == (if key[x] == v then [x] else []) + WithKey(ys, key, v)
  {
    WithKeyCons(ys[0], tail, key, v);
    assert ys == [ys[0]] + ys[1..];
    WithKeyCons(ys[0], ys[1..], key, v);
  }

  /** The sort puts larger keys first. */
  lemma {:induction false} SortDescNonIncreasing(s: seq<string>, key: map<string, int>)
    requires AllKeyed(s, key)
    ensures NonIncreasing(SortDesc(s, key), key)
    decreases |s|
  {
    if s != [] {
      var rest := SortDesc(s[1..], key);
      SortDescNonIncreasing(s[1..], key);
      assert forall y :: y in rest ==> y in multiset(s[1..]);
      InsertNonIncreasing(s[0], rest, key);
    }
  }

  /** The sort is stable: the elements of each key keep their order. */
  lemma {:induction false} SortDescStable(s: seq<string>, key: map<string, int>, v: int)
    requires AllKeyed(s, key)
    ensures WithKey(SortDesc(s, key), key, v) == WithKey(s, key, v)
    decreases |s|
  {
    if s != [] {
      var rest := SortDesc(s[1..], key);
      SortDescStable(s[1..], key, v);
      assert forall y :: y in rest ==> y in multiset(s[1..]);
      InsertWithKey(s[0], rest, key, v);
    }
  }

}
