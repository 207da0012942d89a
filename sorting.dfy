/**
 * `Array.prototype.sort` with a comparator, which the runtime guarantees to be
 * stable. A comparator `cmp` is given here as the order `le(a, b) := cmp(a, b) <= 0`;
 * the stable sort of a sequence by a total preorder is unique, so the insertion
 * sort below has the same result as the runtime's sort.
 */
module Sorting {
  import opened Seqs

  /** `le` is total and transitive: a comparator that is consistent. */
  ghost predicate TotalPreorder<T(!new)>(le: (T, T) -> bool) {
    && (forall a, b :: le(a, b) || le(b, a))
    && (forall a, b, c :: le(a, b) && le(b, c) ==> le(a, c))
  }

  ghost predicate Sorted<T>(s: seq<T>, le: (T, T) -> bool) {
    forall i, j :: 0 <= i < j < |s| ==> le(s[i], s[j])
  }

  /** Puts `x` in front of the first element it is not after. */
  function Insert<T>(x: T, t: seq<T>, le: (T, T) -> bool): (r: seq<T>)
    ensures |r| == |t| + 1
    ensures multiset(r) == multiset(t) + multiset{x}
  {
    if t == [] then [x]
    else if le(x, t[0]) then [x] + t
    else
      assert t == [t[0]] + t[1..];
      [t[0]] + Insert(x, t[1..], le)
  }

  /** The stable sort of `s` by `le`. */
  function Sort<T>(s: seq<T>, le: (T, T) -> bool): (r: seq<T>)
    ensures |r| == |s|
    ensures multiset(r) == multiset(s)
  {
    if s == [] then []
    else
      assert s == [s[0]] + s[1..];
      Insert(s[0], Sort(s[1..], le), le)
  }

  lemma {:induction false} InsertSorted<T(!new)>(x: T, t: seq<T>, le: (T, T) -> bool)
    requires TotalPreorder(le) && Sorted(t, le)
    ensures Sorted(Insert(x, t, le), le)
  {
    if t != [] {
      if le(x, t[0]) {
        var r := [x] + t;
        forall i, j | 0 <= i < j < |r| ensures le(r[i], r[j]) {
          if i == 0 && j > 1 {
            assert le(x, t[0]) && le(t[0], t[j - 1]);
          }
        }
      } else {
        var u := t[1..];
        InsertSorted(x, u, le);
        var ru := Insert(x, u, le);
        var r := [t[0]] + ru;
        forall k | 0 <= k < |ru| ensures le(t[0], ru[k]) {
          assert ru[k] in multiset(ru);
          if ru[k] != x {
            assert ru[k] in multiset(u);
            var j :| 0 <= j < |u| && u[j] == ru[k];
            assert t[j + 1] == u[j];
          }
        }
        forall i, j | 0 <= i < j < |r| ensures le(r[i], r[j]) {
          if i == 0 {
            assert r[j] == ru[j - 1];
          } else {
            assert r[i] == ru[i - 1] && r[j] == ru[j - 1];
          }
        }
      }
    }
  }

  /** The sort orders its result by `le`. */
  lemma {:induction false} SortSorted<T(!new)>(s: seq<T>, le: (T, T) -> bool)
    requires TotalPreorder(le)
    ensures Sorted(Sort(s, le), le)
  {
    if s != [] {
      SortSorted(s[1..], le);
      InsertSorted(s[0], Sort(s[1..], le), le);
    }
  }

  /** The elements of `s` that `le` ranks equal to `e`, in their order in `s`. */
  function SameRank<T>(s: seq<T>, le: (T, T) -> bool, e: T): (r: seq<T>)
    ensures |r| <= |s|
  {
    if s == [] then []
    else (if le(s[0], e) && le(e, s[0]) then [s[0]] else []) + SameRank(s[1..], le, e)
  }

  lemma {:induction false} InsertStable<T(!new)>(x: T, t: seq<T>, le: (T, T) -> bool, e: T)
    requires TotalPreorder(le)
    ensures SameRank(Insert(x, t, le), le, e) == SameRank([x] + t, le, e)
  {
    assert ([x] + t)[1..] == t;
    if t != [] && !le(x, t[0]) {
      var u := t[1..];
      InsertStable(x, u, le, e);
      assert ([t[0]] + Insert(x, u, le))[1..] == Insert(x, u, le);
      assert ([x] + u)[1..] == u;
    }
  }

  /**
   * The sort is stable: elements that `le` ranks equal keep their relative order.
   */
  lemma {:induction false} SortStable<T(!new)>(s: seq<T>, le: (T, T) -> bool, e: T)
    requires TotalPreorder(le)
    ensures SameRank(Sort(s, le), le, e) == SameRank(s, le, e)
  {
    if s != [] {
      SortStable(s[1..], le, e);
      InsertStable(s[0], Sort(s[1..], le), le, e);
      assert ([s[0]] + Sort(s[1..], le))[1..] == Sort(s[1..], le);
    }
  }

  /** The first element of a non-empty sort is a least element of the input. */
  lemma SortFirstIsLeast<T(!new)>(s: seq<T>, le: (T, T) -> bool)
    requires TotalPreorder(le) && |s| > 0
    ensures Sort(s, le)[0] in s
    ensures forall i :: 0 <= i < |s| ==> le(Sort(s, le)[0], s[i])
  {
    var r := Sort(s, le);
    SortSorted(s, le);
    assert r[0] in multiset(r);
    forall i | 0 <= i < |s| ensures le(r[0], s[i]) {
      assert s[i] in multiset(s);
      var j :| 0 <= j < |r| && r[j] == s[i];
      if j > 0 {
        assert le(r[0], r[j]);
      }
    }
  }

  /** Sorting neither adds nor drops an element. */
  lemma SortElements<T>(s: seq<T>, le: (T, T) -> bool, x: T)
    ensures x in Sort(s, le) <==> x in s
  {
    var r := Sort(s, le);
    assert x in r <==> x in multiset(r);
    assert x in s <==> x in multiset(s);
  }

  /**
   * Sorting commutes with a mapping that carries one order onto the other:
   * sorting keys by the rank of what they name, then looking each up, is looking
   * them up and then sorting by rank.
   */
  lemma {:induction false} InsertMap<A, B>(x: A, t: seq<A>, f: A -> B, leA: (A, A) -> bool, leB: (B, B) -> bool)
    requires forall a, b :: a in [x] + t && b in [x] + t ==> leA(a, b) == leB(f(a), f(b))
    ensures Map(Insert(x, t, leA), f) == Insert(f(x), Map(t, f), leB)
  {
    if t != [] && !leA(x, t[0]) {
      assert x in [x] + t && t[0] in [x] + t;
      forall a, b | a in [x] + t[1..] && b in [x] + t[1..]
        ensures leA(a, b) == leB(f(a), f(b))
      {
        assert a in [x] + t && b in [x] + t;
      }
      InsertMap(x, t[1..], f, leA, leB);
      assert Map(t, f)[1..] == Map(t[1..], f);
      assert Map([t[0]] + Insert(x, t[1..], leA), f) == [f(t[0])] + Map(Insert(x, t[1..], leA), f);
    } else if t != [] {
      assert x in [x] + t && t[0] in [x] + t;
      assert Map([x] + t, f) == [f(x)] + Map(t, f);
    }
  }

  lemma {:induction false} SortMap<A, B>(s: seq<A>, f: A -> B, leA: (A, A) -> bool, leB: (B, B) -> bool)
    requires forall a, b :: a in s && b in s ==> leA(a, b) == leB(f(a), f(b))
    ensures Map(Sort(s, leA), f) == Sort(Map(s, f), leB)
  {
    if s != [] {
      var u := s[1..];
      SortMap(u, f, leA, leB);
      var su := Sort(u, leA);
      forall a, b | a in [s[0]] + su && b in [s[0]] + su
        ensures leA(a, b) == leB(f(a), f(b))
      {
        SortElements(u, leA, a);
        SortElements(u, leA, b);
      }
      InsertMap(s[0], su, f, leA, leB);
      assert Map(s, f)[1..] == Map(u, f);
    }
  }

  lemma {:induction false} InsertDistinct<T, K>(x: T, t: seq<T>, le: (T, T) -> bool, key: T -> K)
    requires DistinctBy(t, key)
    requires forall i :: 0 <= i < |t| ==> key(t[i]) != key(x)
    ensures DistinctBy(Insert(x, t, le), key)
  {
    if t != [] && !le(x, t[0]) {
      var u := t[1..];
      InsertDistinct(x, u, le, key);
      var ru := Insert(x, u, le);
      forall k | 0 <= k < |ru| ensures key(ru[k]) != key(t[0]) {
        assert ru[k] in multiset(ru);
        if ru[k] != x {
          assert ru[k] in multiset(u);
          var j :| 0 <= j < |u| && u[j] == ru[k];
          assert t[j + 1] == u[j];
        }
      }
      var r := [t[0]] + ru;
      forall i, j | 0 <= i < j < |r| ensures key(r[i]) != key(r[j]) {
        if i > 0 {
          assert r[i] == ru[i - 1] && r[j] == ru[j - 1];
        } else {
          assert r[j] == ru[j - 1];
        }
      }
    } else if t != [] {
      var r := [x] + t;
      forall i, j | 0 <= i < j < |r| ensures key(r[i]) != key(r[j]) {
        if i > 0 {
          assert r[i] == t[i - 1] && r[j] == t[j - 1];
        } else {
          assert r[j] == t[j - 1];
        }
      }
    }
  }

  /** Sorting keeps keys distinct. */
  lemma {:induction false} SortDistinct<T, K>(s: seq<T>, le: (T, T) -> bool, key: T -> K)
    ensures DistinctBy(s, key) ==> DistinctBy(Sort(s, le), key)
  {
    if s != [] && DistinctBy(s, key) {
      var u := s[1..];
      SortDistinct(u, le, key);
      var su := Sort(u, le);
      forall i | 0 <= i < |su| ensures key(su[i]) != key(s[0]) {
        SortElements(u, le, su[i]);
        var j :| 0 <= j < |u| && u[j] == su[i];
        assert s[j + 1] == u[j];
      }
      InsertDistinct(s[0], su, le, key);
    }
  }
}
