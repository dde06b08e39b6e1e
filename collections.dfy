/** Option and Result values, and the sequence helpers the store and the
    handlers share: filtering (SQL `WHERE`, `Array.filter`), dropping the
    absent results of a fan-out, and ordering rows by an integer key (SQL
    `ORDER BY`). */
module Collections {

  datatype Option<T> = None | Some(value: T)

  datatype Result<T, E> = Success(value: T) | Failure(error: E)

  /** The elements of `s` that satisfy `p`, in their original order. */
  function Filter<T(!new)>(s: seq<T>, p: T -> bool): (r: seq<T>)
    ensures |r| <= |s|
    ensures forall x :: x in r <==> x in s && p(x)
    ensures multiset(r) <= multiset(s)
  {
    if s == [] then []
    else
      assert s == [s[0]] + s[1..];
      if p(s[0]) then [s[0]] + Filter(s[1..], p) else Filter(s[1..], p)
  }

  /** Number of elements of `s` that satisfy `p`. */
  function Count<T>(s: seq<T>, p: T -> bool): (n: nat)
    ensures n <= |s|
  {
    if s == [] then 0 else (if p(s[0]) then 1 else 0) + Count(s[1..], p)
  }

  lemma {:induction false} FilterCount<T(!new)>(s: seq<T>, p: T -> bool)
    ensures |Filter(s, p)| == Count(s, p)
    ensures |Filter(s, p)| + |Filter(s, x => !p(x))| == |s|
  {
    if s != [] {
      FilterCount(s[1..], p);
    }
  }

  lemma {:induction false} FilterAppend<T(!new)>(a: seq<T>, b: seq<T>, p: T -> bool)
    ensures Filter(a + b, p) == Filter(a, p) + Filter(b, p)
  {
    if a == [] {
      assert a + b == b;
    } else {
      assert (a + b)[1..] == a[1..] + b;
      FilterAppend(a[1..], b, p);
    }
  }

  /** Filtering by two predicates, one after the other, filters by their conjunction. */
  lemma {:induction false} FilterFilter<T(!new)>(s: seq<T>, p: T -> bool, q: T -> bool)
    ensures Filter(Filter(s, p), q) == Filter(s, x => p(x) && q(x))
  {
    if s != [] {
      FilterFilter(s[1..], p, q);
    }
  }

  /** A filter whose predicate holds of every element changes nothing. */
  lemma {:induction false} FilterAll<T(!new)>(s: seq<T>, p: T -> bool)
    requires forall i :: 0 <= i < |s| ==> p(s[i])
    ensures Filter(s, p) == s
  {
    if s != [] {
      FilterAll(s[1..], p);
    }
  }

  /** A filter whose predicate holds of no element yields nothing. */
  lemma {:induction false} FilterNone<T(!new)>(s: seq<T>, p: T -> bool)
    requires forall i :: 0 <= i < |s| ==> !p(s[i])
    ensures Filter(s, p) == []
  {
    if s != [] {
      FilterNone(s[1..], p);
    }
  }

  /** The present values of `s`, in order: what `results.filter(r => r !== null)` keeps. */
  function Somes<T(!new)>(s: seq<Option<T>>): (r: seq<T>)
    ensures |r| <= |s|
    ensures forall x :: x in r <==> Some(x) in s
  {
    if s == [] then []
    else match s[0]
      case Some(v) => [v] + Somes(s[1..])
      case None => Somes(s[1..])
  }

  function CountSome<T>(s: seq<Option<T>>): nat {
    if s == [] then 0 else (if s[0].Some? then 1 else 0) + CountSome(s[1..])
  }

  lemma {:induction false} SomesLength<T(!new)>(s: seq<Option<T>>)
    ensures |Somes(s)| == CountSome(s)
    ensures |Somes(s)| == |s| <==> forall i :: 0 <= i < |s| ==> s[i].Some?
  {
    if s != [] {
      SomesLength(s[1..]);
      if s[0].None? {
        assert |Somes(s)| < |s|;
      } else if |Somes(s)| == |s| {
        forall i | 0 <= i < |s| ensures s[i].Some? {
          if i > 0 { assert s[1..][i - 1] == s[i]; }
        }
      } else {
        assert |Somes(s[1..])| < |s[1..]|;
        var i :| 0 <= i < |s[1..]| && s[1..][i].None?;
        assert s[i + 1].None?;
      }
    }
  }

  lemma {:induction false} SomesAppend<T(!new)>(a: seq<Option<T>>, b: seq<Option<T>>)
    ensures Somes(a + b) == Somes(a) + Somes(b)
  {
    if a == [] {
      assert a + b == b;
    } else {
      assert (a + b)[1..] == a[1..] + b;
      SomesAppend(a[1..], b);
    }
  }

  /** `s` with `f` applied to every element, in order (`Array.prototype.map`). */
  function Map<A, B>(s: seq<A>, f: A -> B): (r: seq<B>)
    ensures |r| == |s|
    ensures forall i :: 0 <= i < |s| ==> r[i] == f(s[i])
  {
    seq(|s|, i requires 0 <= i < |s| => f(s[i]))
  }

  /** Mapping a concatenation maps each part. */
  lemma MapAppend<A, B>(s: seq<A>, t: seq<A>, f: A -> B)
    ensures Map(s + t, f) == Map(s, f) + Map(t, f)
  {
    forall i | 0 <= i < |s + t| ensures Map(s + t, f)[i] == (Map(s, f) + Map(t, f))[i] {
      if i >= |s| { assert (s + t)[i] == t[i - |s|]; }
    }
  }

  // ---------------------------------------------------------------------
  // Ordering rows by an integer key (stable insertion sort)
  // ---------------------------------------------------------------------

  ghost predicate SortedBy<T>(s: seq<T>, key: T -> int) {
    forall i, j :: 0 <= i < j < |s| ==> key(s[i]) <= key(s[j])
  }

  /** Inserts `x` before the first element whose key is not smaller than its own. */
  function InsertBy<T>(x: T, s: seq<T>, key: T -> int): (r: seq<T>)
    ensures multiset(r) == multiset(s) + multiset{x}
    ensures |r| == |s| + 1
  {
    if s == [] then [x]
    else if key(x) <= key(s[0]) then [x] + s
    else
      assert s == [s[0]] + s[1..];
      [s[0]] + InsertBy(x, s[1..], key)
  }

  /** A sorted sequence stays sorted with an element in front that is no larger than any of it. */
  lemma SortedCons<T>(h: T, s: seq<T>, key: T -> int)
    requires SortedBy(s, key)
    requires forall j :: 0 <= j < |s| ==> key(h) <= key(s[j])
    ensures SortedBy([h] + s, key)
  {
    var r := [h] + s;
    forall i, j | 0 <= i < j < |r| ensures key(r[i]) <= key(r[j]) {
      assert r[j] == s[j - 1];
      if i > 0 { assert r[i] == s[i - 1]; }
    }
  }

  /** Every key in a sorted sequence is at least its first. */
  lemma SortedTail<T>(s: seq<T>, key: T -> int)
    requires SortedBy(s, key) && s != []
    ensures SortedBy(s[1..], key)
    ensures forall j :: 0 <= j < |s[1..]| ==> key(s[0]) <= key(s[1..][j])
  {
    forall i, j | 0 <= i < j < |s[1..]| ensures key(s[1..][i]) <= key(s[1..][j]) {
      assert s[1..][i] == s[i + 1] && s[1..][j] == s[j + 1];
    }
    forall j | 0 <= j < |s[1..]| ensures key(s[0]) <= key(s[1..][j]) {
      assert s[1..][j] == s[j + 1];
    }
  }

  /** Every element of `InsertBy(x, s, key)` is `x` or an element of `s`. */
  lemma InsertByBound<T>(x: T, s: seq<T>, key: T -> int, bound: int)
    requires bound <= key(x)
    requires forall j :: 0 <= j < |s| ==> bound <= key(s[j])
    ensures forall j :: 0 <= j < |InsertBy(x, s, key)| ==> bound <= key(InsertBy(x, s, key)[j])
  {
    var r := InsertBy(x, s, key);
    forall j | 0 <= j < |r| ensures bound <= key(r[j]) {
      var y := r[j];
      assert y in multiset(r);
      if y != x {
        assert y in multiset(s);
        var k :| 0 <= k < |s| && s[k] == y;
      }
    }
  }

  lemma {:induction false} InsertBySorted<T>(x: T, s: seq<T>, key: T -> int)
    requires SortedBy(s, key)
    ensures SortedBy(InsertBy(x, s, key), key)
  {
    if s == [] {
    } else if key(x) <= key(s[0]) {
      SortedCons(x, s, key);
    } else {
      SortedTail(s, key);
      InsertBySorted(x, s[1..], key);
      InsertByBound(x, s[1..], key, key(s[0]));
      SortedCons(s[0], InsertBy(x, s[1..], key), key);
    }
  }

  /** `s` ordered by ascending `key`; rows with equal keys keep their order. */
  function SortBy<T>(s: seq<T>, key: T -> int): (r: seq<T>)
    ensures multiset(r) == multiset(s)
    ensures |r| == |s|
    ensures SortedBy(r, key)
  {
    if s == [] then []
    else
      assert s == [s[0]] + s[1..];
      var rest := SortBy(s[1..], key);
      InsertBySorted(s[0], rest, key);
      InsertBy(s[0], rest, key)
  }

  /** Sorting a sequence that is already in key order leaves it as it is. */
  lemma {:induction false} SortBySorted<T>(s: seq<T>, key: T -> int)
    requires SortedBy(s, key)
    ensures SortBy(s, key) == s
  {
    if s != [] {
      assert SortedBy(s[1..], key) by {
        forall i, j | 0 <= i < j < |s[1..]| ensures key(s[1..][i]) <= key(s[1..][j]) {
          assert s[1..][i] == s[i + 1] && s[1..][j] == s[j + 1];
        }
      }
      SortBySorted(s[1..], key);
      if |s| > 1 {
        assert key(s[0]) <= key(s[1..][0]);
      }
      assert [s[0]] + s[1..] == s;
    }
  }

  /** Every element left out of a prefix of a sorted sequence has a key no
      smaller than every element kept: `ORDER BY … LIMIT n` keeps the n smallest. */
  lemma PrefixKeepsSmallest<T>(s: seq<T>, key: T -> int, n: nat)
    requires SortedBy(s, key) && n <= |s|
    ensures forall x, y :: x in multiset(s) - multiset(s[..n]) && y in s[..n] ==> key(y) <= key(x)
  {
    assert s == s[..n] + s[n..];
    assert multiset(s) - multiset(s[..n]) == multiset(s[n..]);
    forall x, y | x in multiset(s[n..]) && y in s[..n] ensures key(y) <= key(x) {
      var i :| 0 <= i < n && s[i] == y;
      var j :| 0 <= j < |s[n..]| && s[n..][j] == x;
      assert s[n + j] == x;
    }
  }
}
