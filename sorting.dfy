/** The stable sort that `Array.prototype.sort` performs (stable since
    ECMAScript 2019), specified as an insertion sort on a numeric key in
    ascending order. A comparator `(a, b) => key(a) - key(b)` orders by
    `key`; `(a, b) => b.score - a.score` is the key `-score`. */
module StableSort {

  predicate SortedBy<T>(s: seq<T>, key: T -> real)
  {
    forall i, j :: 0 <= i < j < |s| ==> key(s[i]) <= key(s[j])
  }

  /** Inserts x after every leading element whose key does not exceed key(x). */
  function Insert<T>(s: seq<T>, x: T, key: T -> real): (r: seq<T>)
    ensures |r| == |s| + 1
  {
    if s == [] then [x]
    else if key(x) < key(s[0]) then [x] + s
    else [s[0]] + Insert(s[1..], x, key)
  }

  /** Where Insert places x: the length of the leading run with key <= key(x). */
  function InsertPos<T>(s: seq<T>, x: T, key: T -> real): (k: nat)
    ensures k <= |s|
  {
    if s == [] || key(x) < key(s[0]) then 0 else 1 + InsertPos(s[1..], x, key)
  }

  /** Sorts by processing the elements left to right, each inserted after the
      equal-keyed elements already placed. */
  function Sort<T>(s: seq<T>, key: T -> real): (r: seq<T>)
    ensures |r| == |s|
  {
    if s == [] then []
    else Insert(Sort(s[..|s| - 1], key), s[|s| - 1], key)
  }

  /** The subsequence of elements whose key is v, in their original order. */
  function WithKey<T>(s: seq<T>, key: T -> real, v: real): (r: seq<T>)
    ensures |r| <= |s|
  {
    if s == [] then []
    else WithKey(s[..|s| - 1], key, v) + (if key(s[|s| - 1]) == v then [s[|s| - 1]] else [])
  }

  lemma {:induction false} InsertShape<T>(s: seq<T>, x: T, key: T -> real)
    ensures Insert(s, x, key) == s[..InsertPos(s, x, key)] + [x] + s[InsertPos(s, x, key)..]
  {
    if s != [] && key(x) >= key(s[0]) {
      var t := s[1..];
      var k' := InsertPos(t, x, key);
      calc {
        Insert(s, x, key);
        [s[0]] + Insert(t, x, key);
        { InsertShape(t, x, key); }
        [s[0]] + (t[..k'] + [x] + t[k'..]);
        ([s[0]] + t[..k']) + [x] + t[k'..];
        { assert [s[0]] + t[..k'] == s[..k' + 1]; assert t[k'..] == s[k' + 1..]; }
        s[..k' + 1] + [x] + s[k' + 1..];
      }
    }
  }

  lemma {:induction false} InsertPosBounds<T>(s: seq<T>, x: T, key: T -> real)
    ensures forall i :: 0 <= i < InsertPos(s, x, key) ==> key(s[i]) <= key(x)
    ensures InsertPos(s, x, key) < |s| ==> key(x) < key(s[InsertPos(s, x, key)])
  {
    if s != [] && key(x) >= key(s[0]) {
      InsertPosBounds(s[1..], x, key);
      forall i | 1 <= i < InsertPos(s, x, key) ensures key(s[i]) <= key(x) {
        assert s[i] == s[1..][i - 1];
      }
    }
  }

  lemma InsertSplits<T>(s: seq<T>, x: T, key: T -> real)
    ensures var k := InsertPos(s, x, key);
      && Insert(s, x, key) == s[..k] + [x] + s[k..]
      && (forall i :: 0 <= i < k ==> key(s[i]) <= key(x))
      && (k < |s| ==> key(x) < key(s[k]))
  {
    InsertShape(s, x, key);
    InsertPosBounds(s, x, key);
  }

  lemma InsertPermutes<T>(s: seq<T>, x: T, key: T -> real)
    ensures multiset(Insert(s, x, key)) == multiset(s) + multiset{x}
  {
    InsertShape(s, x, key);
    var k := InsertPos(s, x, key);
    assert s == s[..k] + s[k..];
  }

  /** Sorting only reorders: the output is a permutation of the input. */
  lemma {:induction false} SortPermutes<T>(s: seq<T>, key: T -> real)
    ensures multiset(Sort(s, key)) == multiset(s)
  {
    if s != [] {
      var init := s[..|s| - 1];
      SortPermutes(init, key);
      InsertPermutes(Sort(init, key), s[|s| - 1], key);
      assert s == init + [s[|s| - 1]];
    }
  }

  lemma InsertSorted<T>(s: seq<T>, x: T, key: T -> real)
    requires SortedBy(s, key)
    ensures SortedBy(Insert(s, x, key), key)
  {
    InsertSplits(s, x, key);
    var k := InsertPos(s, x, key);
    var r := Insert(s, x, key);
    forall i, j | 0 <= i < j < |r|
      ensures key(r[i]) <= key(r[j])
    {
      var si := if i < k then s[i] else if i == k then x else s[i - 1];
      var sj := if j < k then s[j] else if j == k then x else s[j - 1];
      assert r[i] == si && r[j] == sj;
      if i == k {
        assert key(x) < key(s[k]) && key(s[k]) <= key(s[j - 1]);
      } else if j == k {
        assert key(s[i]) <= key(x);
      }
    }
  }

  lemma {:induction false} SortSorted<T>(s: seq<T>, key: T -> real)
    ensures SortedBy(Sort(s, key), key)
  {
    if s != [] {
      SortSorted(s[..|s| - 1], key);
      InsertSorted(Sort(s[..|s| - 1], key), s[|s| - 1], key);
    }
  }

  /** Inserting an element no smaller than every key of s appends it. */
  lemma InsertLast<T>(s: seq<T>, x: T, key: T -> real)
    requires forall i :: 0 <= i < |s| ==> key(s[i]) <= key(x)
    ensures Insert(s, x, key) == s + [x]
  {
    InsertSplits(s, x, key);
    assert InsertPos(s, x, key) == |s|;
    assert s[..|s|] == s && s[|s|..] == [];
  }

  /** Sorting a sorted sequence changes nothing. */
  lemma {:induction false} SortOfSorted<T>(s: seq<T>, key: T -> real)
    requires SortedBy(s, key)
    ensures Sort(s, key) == s
  {
    if s != [] {
      var init := s[..|s| - 1];
      assert SortedBy(init, key);
      SortOfSorted(init, key);
      InsertLast(init, s[|s| - 1], key);
      assert init + [s[|s| - 1]] == s;
    }
  }

  /** Sorting a sorted sequence extended by x inserts x after every element
      whose key is at most key(x). */
  lemma SortAppendSorted<T>(s: seq<T>, x: T, key: T -> real)
    requires SortedBy(s, key)
    ensures Sort(s + [x], key) == Insert(s, x, key)
  {
    assert (s + [x])[..|s|] == s;
    SortOfSorted(s, key);
  }

  lemma {:induction false} WithKeyAppend<T>(a: seq<T>, b: seq<T>, key: T -> real, v: real)
    ensures WithKey(a + b, key, v) == WithKey(a, key, v) + WithKey(b, key, v)
  {
    if b != [] {
      var b' := b[..|b| - 1];
      assert (a + b)[..|a + b| - 1] == a + b';
      WithKeyAppend(a, b', key, v);
    } else {
      assert a + b == a;
    }
  }

  lemma {:induction false} WithKeyNone<T>(s: seq<T>, key: T -> real, v: real)
    requires forall i :: 0 <= i < |s| ==> key(s[i]) != v
    ensures WithKey(s, key, v) == []
  {
    if s != [] {
      WithKeyNone(s[..|s| - 1], key, v);
    }
  }

  lemma WithKeySingle<T>(x: T, key: T -> real, v: real)
    ensures WithKey([x], key, v) == if key(x) == v then [x] else []
  {
    assert [x][..0] == [];
  }

  /** Insert keeps the order of the elements with any given key and places x
      after those equal to it. */
  lemma WithKeySplit<T>(a: seq<T>, x: T, b: seq<T>, key: T -> real, v: real)
    ensures WithKey(a + [x] + b, key, v)
         == WithKey(a, key, v) + (if key(x) == v then [x] else []) + WithKey(b, key, v)
  {
    WithKeyAppend(a + [x], b, key, v);
    WithKeyAppend(a, [x], key, v);
    WithKeySingle(x, key, v);
  }

  /** In a sorted sequence, nothing from the insertion point on has key(x). */
  lemma SortedTailAbove<T>(s: seq<T>, x: T, key: T -> real)
    requires SortedBy(s, key)
    ensures WithKey(s[InsertPos(s, x, key)..], key, key(x)) == []
  {
    InsertPosBounds(s, x, key);
    var k := InsertPos(s, x, key);
    var b := s[k..];
    forall i | 0 <= i < |b| ensures key(b[i]) != key(x) {
      assert b[i] == s[k + i];
      assert i > 0 ==> key(s[k]) <= key(s[k + i]);
    }
    WithKeyNone(b, key, key(x));
  }

  lemma WithKeyAt<T>(s: seq<T>, k: nat, key: T -> real, v: real)
    requires k <= |s|
    ensures WithKey(s, key, v) == WithKey(s[..k], key, v) + WithKey(s[k..], key, v)
  {
    assert s == s[..k] + s[k..];
    WithKeyAppend(s[..k], s[k..], key, v);
  }

  lemma InsertStable<T>(s: seq<T>, x: T, key: T -> real, v: real)
    requires SortedBy(s, key)
    ensures WithKey(Insert(s, x, key), key, v)
         == WithKey(s, key, v) + (if key(x) == v then [x] else [])
  {
    var k := InsertPos(s, x, key);
    InsertShape(s, x, key);
    WithKeySplit(s[..k], x, s[k..], key, v);
    WithKeyAt(s, k, key, v);
    if key(x) == v {
      SortedTailAbove(s, x, key);
    }
  }

  /** Stability: for every key value, the elements carrying it appear in the
      sorted output in the same order as in the input. */
  lemma {:induction false} SortStable<T>(s: seq<T>, key: T -> real, v: real)
    ensures WithKey(Sort(s, key), key, v) == WithKey(s, key, v)
  {
    if s != [] {
      var init := s[..|s| - 1];
      SortStable(init, key, v);
      SortSorted(init, key);
      InsertStable(Sort(init, key), s[|s| - 1], key, v);
    }
  }

  /** Cutting a sorted sequence at k: nothing after the cut has a smaller key
      than anything before it, and the part after the cut is still sorted. */
  lemma SortedCut<T>(s: seq<T>, key: T -> real, k: nat)
    requires SortedBy(s, key) && k <= |s|
    ensures forall a, b :: a in s[..k] && b in s[k..] ==> key(a) <= key(b)
    ensures SortedBy(s[k..], key)
  {
    forall a, b | a in s[..k] && b in s[k..] ensures key(a) <= key(b) {
      var i :| 0 <= i < k && s[..k][i] == a;
      var j :| 0 <= j < |s| - k && s[k..][j] == b;
      assert s[i] == a && s[k + j] == b;
    }
    forall i, j | 0 <= i < j < |s| - k ensures key(s[k..][i]) <= key(s[k..][j]) {
      assert s[k..][i] == s[k + i] && s[k..][j] == s[k + j];
    }
  }

  /** Cutting a sorted copy after n elements: the two parts make up the input,
      no element of the second part has a smaller key than one of the first,
      and the second part is still sorted. */
  lemma SortSplit<T>(s: seq<T>, key: T -> real, n: nat)
    ensures var sorted := Sort(s, key);
      var k := if |s| <= n then |s| else n;
      && multiset(sorted[..k]) + multiset(sorted[k..]) == multiset(s)
      && (forall a, b :: a in sorted[..k] && b in sorted[k..] ==> key(a) <= key(b))
      && SortedBy(sorted[k..], key)
  {
    var sorted := Sort(s, key);
    var k := if |s| <= n then |s| else n;
    SortPermutes(s, key);
    SortSorted(s, key);
    assert sorted == sorted[..k] + sorted[k..];
    SortedCut(sorted, key, k);
  }
}
