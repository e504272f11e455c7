/** What the routers get from SQLAlchemy queries: the rows of a table that
    satisfy a filter (`query(X).filter(...).all()`, in no promised order) and
    `order_by`, modelled as a sort under a total preorder. */
module Query {

  ghost predicate TotalPreorder<T(!new)>(le: (T, T) -> bool) {
    (forall a, b :: le(a, b) || le(b, a)) &&
    (forall a, b, c :: le(a, b) && le(b, c) ==> le(a, c))
  }

  ghost predicate Sorted<T>(s: seq<T>, le: (T, T) -> bool) {
    forall i, j :: 0 <= i < j < |s| ==> le(s[i], s[j])
  }

  /** Inserts `x` before the first element it is not above. */
  function Insert<T(!new)>(x: T, s: seq<T>, le: (T, T) -> bool): (r: seq<T>)
    ensures multiset(r) == multiset(s) + multiset{x}
    ensures TotalPreorder(le) && Sorted(s, le) ==> Sorted(r, le)
  {
    if s == [] then [x]
    else if le(x, s[0]) then
      assert TotalPreorder(le) && Sorted(s, le) ==> Sorted([x] + s, le) by {
        if TotalPreorder(le) && Sorted(s, le) {
          HeadSorted(x, s, le);
        }
      }
      [x] + s
    else
      var rest := Insert(x, s[1..], le);
      assert s == [s[0]] + s[1..];
      assert TotalPreorder(le) && Sorted(s, le) ==> Sorted([s[0]] + rest, le) by {
        if TotalPreorder(le) && Sorted(s, le) {
          ConsSorted(x, s, rest, le);
        }
      }
      [s[0]] + rest
  }

  /** An element at or below the head of a sorted list may go in front. */
  lemma HeadSorted<T(!new)>(x: T, s: seq<T>, le: (T, T) -> bool)
    requires TotalPreorder(le) && Sorted(s, le) && s != [] && le(x, s[0])
    ensures Sorted([x] + s, le)
  {
    forall i, j | 0 <= i < j < |[x] + s| ensures le(([x] + s)[i], ([x] + s)[j]) {
      if i == 0 {
        assert j - 1 == 0 || le(s[0], s[j - 1]);
      } else {
        assert ([x] + s)[i] == s[i - 1] && ([x] + s)[j] == s[j - 1];
      }
    }
  }

  /** The head of a sorted list stays in front of the rest with `x` inserted, when `x`
      is above it. */
  lemma ConsSorted<T(!new)>(x: T, s: seq<T>, rest: seq<T>, le: (T, T) -> bool)
    requires TotalPreorder(le) && Sorted(s, le) && s != [] && !le(x, s[0])
    requires multiset(rest) == multiset(s[1..]) + multiset{x} && Sorted(rest, le)
    ensures Sorted([s[0]] + rest, le)
  {
    forall j | 0 <= j < |rest| ensures le(s[0], rest[j]) {
      assert rest[j] in multiset(rest);
      if rest[j] != x {
        assert rest[j] in multiset(s[1..]);
        var k :| 0 <= k < |s[1..]| && s[1..][k] == rest[j];
        assert s[k + 1] == rest[j];
      }
    }
    forall i, j | 0 <= i < j < |[s[0]] + rest| ensures le(([s[0]] + rest)[i], ([s[0]] + rest)[j]) {
      if i == 0 {
        assert ([s[0]] + rest)[j] == rest[j - 1];
      } else {
        assert ([s[0]] + rest)[i] == rest[i - 1] && ([s[0]] + rest)[j] == rest[j - 1];
      }
    }
  }

  /** `ORDER BY`: an insertion sort. The result is a permutation of the input and,
      under a total preorder, sorted. */
  function SortBy<T(!new)>(s: seq<T>, le: (T, T) -> bool): (r: seq<T>)
    ensures multiset(r) == multiset(s)
    ensures TotalPreorder(le) ==> Sorted(r, le)
  {
    if s == [] then []
    else
      assert s == [s[0]] + s[1..];
      Insert(s[0], SortBy(s[1..], le), le)
  }

  /** The primary keys of the rows of `table` that satisfy `p`. */
  function Where<V(!new)>(table: map<int, V>, p: V -> bool): set<int> {
    set k | k in table && p(table[k])
  }

  /** `query(table).filter(p).all()`, by primary key: every matching key exactly once,
      in an order the database does not promise. */
  method SelectKeys<V(!new)>(table: map<int, V>, p: V -> bool) returns (ks: seq<int>)
    ensures multiset(ks) == multiset(Where(table, p))
  {
    ks := [];
    var rest := table.Keys;
    while exists x :: x in rest
      invariant rest <= table.Keys
      invariant multiset(ks) == multiset(set j | j in table && j !in rest && p(table[j]))
      decreases |rest|
    {
      var x :| x in rest;
      ghost var before := set j | j in table && j !in rest && p(table[j]);
      ghost var after := set j | j in table && j !in rest - {x} && p(table[j]);
      if p(table[x]) {
        assert after == before + {x};
        ks := ks + [x];
      } else {
        assert after == before;
      }
      rest := rest - {x};
    }
    assert (set j | j in table && j !in rest && p(table[j])) == Where(table, p);
  }

  /** Order of primary keys by an integer column of their rows (keys missing from the
      table rank as 0, which never happens for keys taken from the table). */
  function Rank<V>(table: map<int, V>, key: V -> int, k: int): int {
    if k in table then key(table[k]) else 0
  }

  function Ascending<V>(table: map<int, V>, key: V -> int): (int, int) -> bool {
    (a: int, b: int) => Rank(table, key, a) <= Rank(table, key, b)
  }

  lemma AscendingIsPreorder<V>(table: map<int, V>, key: V -> int)
    ensures TotalPreorder(Ascending(table, key))
  {
  }

  /** `query(table).filter(p).order_by(key).all()`, by primary key. */
  method SelectOrdered<V(!new)>(table: map<int, V>, p: V -> bool, key: V -> int) returns (ks: seq<int>)
    ensures multiset(ks) == multiset(Where(table, p))
    ensures forall i :: 0 <= i < |ks| ==> ks[i] in table && p(table[ks[i]])
    ensures forall i, j :: 0 <= i < j < |ks| ==> key(table[ks[i]]) <= key(table[ks[j]])
  {
    var found := SelectKeys(table, p);
    ks := SortBy(found, Ascending(table, key));
    AscendingIsPreorder(table, key);
    forall i | 0 <= i < |ks| ensures ks[i] in table && p(table[ks[i]]) {
      assert ks[i] in multiset(Where(table, p));
    }
    forall i, j | 0 <= i < j < |ks| ensures key(table[ks[i]]) <= key(table[ks[j]]) {
      assert Ascending(table, key)(ks[i], ks[j]);
    }
  }

  /** Every key of a multiset built from a set occurs in it once. */
  lemma InSetMultiset(ks: seq<int>, s: set<int>, k: int)
    requires multiset(ks) == multiset(s)
    ensures k in ks <==> k in s
  {
    assert k in ks <==> k in multiset(ks);
  }

  /** A sequence with the multiset of a set repeats no element. */
  lemma DistinctFromSet(ks: seq<int>, s: set<int>, i: int, j: int)
    requires multiset(ks) == multiset(s) && 0 <= i < j < |ks|
    ensures ks[i] != ks[j]
  {
    if ks[i] == ks[j] {
      CountTwo(ks, i, j);
      assert false;
    }
  }

  lemma CountTwo<T>(ks: seq<T>, i: int, j: int)
    requires 0 <= i < j < |ks| && ks[i] == ks[j]
    ensures multiset(ks)[ks[i]] >= 2
  {
    var x := ks[i];
    var a, b := ks[..j], ks[j..];
    assert ks == a + b;
    assert a[i] == x && b[0] == x;
    assert x in multiset(a) && x in multiset(b);
    assert multiset(ks) == multiset(a) + multiset(b);
  }

  /** An element of a sequence without repetitions occurs in its multiset at most once. */
  lemma {:induction false} AtMostOnce<T>(s: seq<T>, x: T)
    requires forall i, j :: 0 <= i < j < |s| ==> s[i] != s[j]
    ensures multiset(s)[x] <= 1
  {
    if s != [] {
      assert s == [s[0]] + s[1..];
      AtMostOnce(s[1..], x);
      if s[0] == x {
        assert x !in s[1..] by {
          forall k | 0 <= k < |s[1..]| ensures s[1..][k] != x {
            assert s[1..][k] == s[k + 1];
          }
        }
      }
    }
  }

  /** A permutation of a sequence without repetitions has none either. */
  lemma PermutationKeepsDistinct<T>(a: seq<T>, b: seq<T>)
    requires multiset(a) == multiset(b)
    requires forall i, j :: 0 <= i < j < |a| ==> a[i] != a[j]
    ensures forall i, j :: 0 <= i < j < |b| ==> b[i] != b[j]
  {
    forall i, j | 0 <= i < j < |b| ensures b[i] != b[j] {
      AtMostOnce(a, b[i]);
      if b[i] == b[j] {
        CountTwo(b, i, j);
        assert false;
      }
    }
  }

  /** A sequence with the multiset of a set has the set's size. */
  lemma SizeFromSet(ks: seq<int>, s: set<int>)
    requires multiset(ks) == multiset(s)
    ensures |ks| == |s|
  {
    assert |multiset(ks)| == |ks|;
    assert |multiset(s)| == |s|;
  }
}
