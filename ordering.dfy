/**
 * The store's `.sort(...)`, `.limit(n)` and `findOne(...).sort(...)`:
 * every sort in the handlers is ascending on a key of up to three parts
 * (a number, then two strings), so one key type and one sort serve them all.
 */
module Ordering {
  import opened Wrappers
  import opened Strings

  /** A sort key compared part by part: `major` numerically, `first` and `second` as strings. */
  datatype Key = Key(major: int, first: string, second: string)

  predicate KeyLt(a: Key, b: Key) {
    || a.major < b.major
    || (a.major == b.major && StrLt(a.first, b.first))
    || (a.major == b.major && a.first == b.first && StrLt(a.second, b.second))
  }

  predicate KeyLe(a: Key, b: Key) {
    a == b || KeyLt(a, b)
  }

  lemma KeyLeTotal(a: Key, b: Key)
    ensures KeyLe(a, b) || KeyLe(b, a)
  {
    StrLtTotal(a.first, b.first);
    StrLtTotal(a.second, b.second);
  }

  lemma KeyLeTransitive(a: Key, b: Key, c: Key)
    requires KeyLe(a, b) && KeyLe(b, c)
    ensures KeyLe(a, c)
  {
    StrLtIrreflexive(a.first);
    StrLtIrreflexive(b.first);
    if a != b && b != c && a.major == b.major == c.major {
      if a.first == b.first == c.first {
        StrLtTransitive(a.second, b.second, c.second);
      } else if a.first != b.first && b.first != c.first {
        StrLtTransitive(a.first, b.first, c.first);
      }
    }
  }

  predicate SortedBy<T>(s: seq<T>, key: T -> Key) {
    forall i, j :: 0 <= i < j < |s| ==> KeyLe(key(s[i]), key(s[j]))
  }

  /** Inserts `x` before the first element it does not come after. */
  function Insert<T>(x: T, s: seq<T>, key: T -> Key): (r: seq<T>)
    requires SortedBy(s, key)
    ensures SortedBy(r, key)
    ensures multiset(r) == multiset(s) + multiset{x}
  {
    if s == [] then [x]
    else if KeyLe(key(x), key(s[0])) then
      assert forall j :: 0 < j < |s| ==> KeyLe(key(x), key(s[j])) by {
        forall j | 0 < j < |s| ensures KeyLe(key(x), key(s[j])) {
          KeyLeTransitive(key(x), key(s[0]), key(s[j]));
        }
      }
      [x] + s
    else
      KeyLeTotal(key(x), key(s[0]));
      var t := Insert(x, s[1..], key);
      assert s == [s[0]] + s[1..];
      assert forall j :: 0 <= j < |t| ==> KeyLe(key(s[0]), key(t[j])) by {
        forall j | 0 <= j < |t| ensures KeyLe(key(s[0]), key(t[j])) {
          assert t[j] in multiset(t);
          assert t[j] == x || t[j] in multiset(s[1..]);
          if t[j] != x {
            var k :| 0 <= k < |s[1..]| && s[1..][k] == t[j];
            assert s[k + 1] == t[j];
          }
        }
      }
      [s[0]] + t
  }

  /** `.sort(key)`: insertion sort, so the result is ordered by `key` and holds exactly the input's elements. */
  function SortBy<T>(s: seq<T>, key: T -> Key): (r: seq<T>)
    ensures SortedBy(r, key)
    ensures multiset(r) == multiset(s)
    ensures |r| == |s|
  {
    if s == [] then []
    else
      assert s == [s[0]] + s[1..];
      Insert(s[0], SortBy(s[1..], key), key)
  }

  lemma SortByMembership<T>(s: seq<T>, key: T -> Key, x: T)
    ensures x in SortBy(s, key) <==> x in s
  {
    var r := SortBy(s, key);
    assert x in r <==> x in multiset(r);
    assert x in s <==> x in multiset(s);
  }

  /** The first `n` elements, or all of them when there are fewer. */
  function Take<T>(s: seq<T>, n: nat): (r: seq<T>)
    ensures |r| == if n < |s| then n else |s|
    ensures r == s[..|r|]
  {
    if n < |s| then s[..n] else s
  }

  function Min(a: int, b: int): int {
    if a < b then a else b
  }

  /** `.limit(n)` of the document store: 0 means no limit and a negative `n` is read as `-n`. */
  function Limit<T>(s: seq<T>, n: int): (r: seq<T>)
    ensures n == 0 ==> r == s
    ensures n > 0 ==> |r| == (if n < |s| then n else |s|)
    ensures n < 0 ==> |r| == (if -n < |s| then -n else |s|)
    ensures r == s[..|r|]
  {
    if n == 0 then s else Take(s, if n < 0 then -n else n)
  }

  /**
   * `find(...).sort(key).limit(n)`: the result is ordered, holds no more
   * copies of any element than the input, has `min(|n|, |s|)` elements
   * (all of the input when `n` is 0 or at least its size), and nothing left
   * out comes before anything returned.
   */
  lemma {:induction false} LimitSorted<T>(s: seq<T>, key: T -> Key, n: int)
    ensures SortedBy(Limit(SortBy(s, key), n), key)
    ensures forall x :: x in Limit(SortBy(s, key), n) ==> x in s
    ensures multiset(Limit(SortBy(s, key), n)) <= multiset(s)
    ensures |Limit(SortBy(s, key), n)| == if n == 0 then |s| else Min(if n < 0 then -n else n, |s|)
    ensures n != 0 ==> |Limit(SortBy(s, key), n)| <= (if n < 0 then -n else n)
    ensures (n == 0 || |s| <= (if n < 0 then -n else n)) ==> multiset(Limit(SortBy(s, key), n)) == multiset(s)
    ensures forall x, y :: x in s && x !in Limit(SortBy(s, key), n) && y in Limit(SortBy(s, key), n)
              ==> KeyLe(key(y), key(x))
  {
    var t := SortBy(s, key);
    var r := Limit(t, n);
    assert t == r + t[|r|..];
    assert multiset(t) == multiset(r) + multiset(t[|r|..]);
    forall x | x in r ensures x in s {
      SortByMembership(s, key, x);
    }
    forall x, y | x in s && x !in r && y in r ensures KeyLe(key(y), key(x)) {
      SortByMembership(s, key, x);
      var j :| 0 <= j < |t| && t[j] == x;
      var i :| 0 <= i < |r| && r[i] == y;
      assert t[i] == y;
    }
  }

  /**
   * `find(filter).sort(key).limit(n)` read against the input: ordered, only
   * elements that pass the filter and no more copies of any than the input
   * has, a passing element left out only when `|n|` were returned and never
   * before a returned one, and every passing copy when the limit did not cut
   * the result short.
   */
  lemma {:induction false} LimitWhere<T>(s: seq<T>, p: T -> bool, key: T -> Key, n: int)
    ensures SortedBy(Limit(SortBy(Where(s, p), key), n), key)
    ensures forall x :: x in Limit(SortBy(Where(s, p), key), n) ==> x in s && p(x)
    ensures forall x :: x in s && p(x) && x !in Limit(SortBy(Where(s, p), key), n) ==>
              n != 0 && |Limit(SortBy(Where(s, p), key), n)| == (if n < 0 then -n else n)
    ensures forall x, y :: x in s && p(x) && x !in Limit(SortBy(Where(s, p), key), n) && y in Limit(SortBy(Where(s, p), key), n)
              ==> KeyLe(key(y), key(x))
    ensures forall x :: multiset(Limit(SortBy(Where(s, p), key), n))[x] <= if p(x) then multiset(s)[x] else 0
    ensures (n == 0 || |Limit(SortBy(Where(s, p), key), n)| < (if n < 0 then -n else n)) ==>
              forall x :: multiset(Limit(SortBy(Where(s, p), key), n))[x] == if p(x) then multiset(s)[x] else 0
  {
    var w := Where(s, p);
    var r := Limit(SortBy(w, key), n);
    WhereMultiset(s, p);
    LimitSorted(w, key, n);
    forall x | x in s && p(x) && x !in r ensures n != 0 && |r| == (if n < 0 then -n else n) {
      assert x in multiset(s);
    }
  }

  /** `findOne(...).sort(key)`: the first element by `key`, or none when there is no element. */
  function First<T>(s: seq<T>, key: T -> Key): (r: Option<T>)
    ensures r.None? <==> s == []
    ensures r.Some? ==> r.value in s && forall y :: y in s ==> KeyLe(key(r.value), key(y))
  {
    if s == [] then None
    else
      var t := SortBy(s, key);
      SortByMembership(s, key, t[0]);
      assert forall y :: y in s ==> KeyLe(key(t[0]), key(y)) by {
        forall y | y in s ensures KeyLe(key(t[0]), key(y)) {
          SortByMembership(s, key, y);
          var j :| 0 <= j < |t| && t[j] == y;
        }
      }
      Some(t[0])
  }

  /** `find(filter)` in table order: the elements that satisfy `p`. */
  function Where<T>(s: seq<T>, p: T -> bool): (r: seq<T>)
    ensures |r| <= |s|
    ensures forall x :: x in r ==> x in s && p(x)
    ensures forall x :: x in s && p(x) ==> x in r
  {
    if s == [] then [] else (if p(s[0]) then [s[0]] else []) + Where(s[1..], p)
  }

  /** A filter keeps every copy of each element that passes it and none of the others. */
  lemma {:induction false} WhereMultiset<T>(s: seq<T>, p: T -> bool)
    ensures forall x :: multiset(Where(s, p))[x] == if p(x) then multiset(s)[x] else 0
  {
    if s != [] {
      assert s == [s[0]] + s[1..];
      WhereMultiset(s[1..], p);
    }
  }

  /** A filter that keeps no more than another keeps no more elements. */
  lemma {:induction false} WhereWeaker<T>(s: seq<T>, p: T -> bool, q: T -> bool)
    requires forall x :: x in s && p(x) ==> q(x)
    ensures |Where(s, p)| <= |Where(s, q)|
  {
    if s != [] {
      assert forall x :: x in s[1..] ==> x in s;
      WhereWeaker(s[1..], p, q);
    }
  }

  /** Narrowing a first filter keeps no more elements after a second one. */
  lemma {:induction false} WhereNestedWeaker<T>(s: seq<T>, p: T -> bool, p2: T -> bool, q: T -> bool)
    requires forall x :: x in s && p(x) ==> p2(x)
    ensures |Where(Where(s, p), q)| <= |Where(Where(s, p2), q)|
  {
    if s != [] {
      assert forall x :: x in s[1..] ==> x in s;
      WhereNestedWeaker(s[1..], p, p2, q);
      var w, w2 := Where(s[1..], p), Where(s[1..], p2);
      WhereAppend(if p(s[0]) then [s[0]] else [], w, q);
      WhereAppend(if p2(s[0]) then [s[0]] else [], w2, q);
    }
  }

  lemma {:induction false} WhereAppend<T>(a: seq<T>, b: seq<T>, q: T -> bool)
    ensures Where(a + b, q) == Where(a, q) + Where(b, q)
  {
    if a != [] {
      assert (a + b)[1..] == a[1..] + b;
      WhereAppend(a[1..], b, q);
    } else {
      assert a + b == b;
    }
  }

  /** A filter keeps nothing exactly when no element passes it. */
  lemma WhereEmpty<T>(s: seq<T>, p: T -> bool)
    ensures Where(s, p) == [] <==> forall x :: x in s ==> !p(x)
  {
    var r := Where(s, p);
    if r != [] {
      assert r[0] in r;
    }
  }

  /** A filter every element passes keeps the whole sequence. */
  lemma {:induction false} WhereAll<T>(s: seq<T>, p: T -> bool)
    requires forall x :: x in s ==> p(x)
    ensures Where(s, p) == s
  {
    if s != [] {
      assert forall x :: x in s[1..] ==> x in s;
      WhereAll(s[1..], p);
    }
  }

  /** Two filters that agree on every element keep the same elements, in the same order. */
  lemma {:induction false} WhereCongruent<T>(s: seq<T>, p: T -> bool, q: T -> bool)
    requires forall x :: x in s ==> p(x) == q(x)
    ensures Where(s, p) == Where(s, q)
  {
    if s != [] {
      assert forall x :: x in s[1..] ==> x in s;
      WhereCongruent(s[1..], p, q);
    }
  }

  /** `reduce((sum, x) => sum + f(x), 0)`. */
  function SumOf<T>(s: seq<T>, f: T -> int): int {
    if s == [] then 0 else f(s[0]) + SumOf(s[1..], f)
  }

  /** A sum of terms that are each at least 1 is at least the number of terms. */
  lemma {:induction false} SumOfAtLeastCount<T>(s: seq<T>, f: T -> int)
    requires forall x :: x in s ==> f(x) >= 1
    ensures SumOf(s, f) >= |s|
  {
    if s != [] {
      assert forall x :: x in s[1..] ==> x in s;
      SumOfAtLeastCount(s[1..], f);
    }
  }

  /** Terms that agree on every element give the same sum. */
  lemma {:induction false} SumOfCongruent<T>(s: seq<T>, f: T -> int, g: T -> int)
    requires forall x :: x in s ==> f(x) == g(x)
    ensures SumOf(s, f) == SumOf(s, g)
  {
    if s != [] {
      assert forall x :: x in s[1..] ==> x in s;
      SumOfCongruent(s[1..], f, g);
    }
  }

  /** `.map(f)`. */
  function Map<T, U>(s: seq<T>, f: T -> U): (r: seq<U>)
    ensures |r| == |s|
    ensures forall i :: 0 <= i < |s| ==> r[i] == f(s[i])
  {
    seq(|s|, i requires 0 <= i < |s| => f(s[i]))
  }

  /** `findById`: the position of the first element satisfying `p`, or none. */
  function FindIndex<T>(s: seq<T>, p: T -> bool): (i: Option<nat>)
    ensures i.Some? ==> i.value < |s| && p(s[i.value]) && forall j :: 0 <= j < i.value ==> !p(s[j])
    ensures i.None? ==> forall j :: 0 <= j < |s| ==> !p(s[j])
  {
    if s == [] then None
    else if p(s[0]) then Some(0)
    else
      var i := FindIndex(s[1..], p);
      if i.Some? then Some(i.value + 1) else None
  }
}
