/**
 * Sorting by an integer-tuple key. The generator sorts with comparators
 * that compare a few integers lexicographically; each comparator is modelled
 * by a key function into `seq<int>` and the lexicographic order on those.
 */
module Sorting {

  /** Lexicographic order on integer sequences; a proper prefix comes first. */
  predicate LexLe(a: seq<int>, b: seq<int>)
    decreases |a|
  {
    a == [] || (b != [] && (a[0] < b[0] || (a[0] == b[0] && LexLe(a[1..], b[1..]))))
  }

  lemma {:induction false} LexTotal(a: seq<int>, b: seq<int>)
    ensures LexLe(a, b) || LexLe(b, a)
    decreases |a|
  {
    if a != [] && b != [] && a[0] == b[0] {
      LexTotal(a[1..], b[1..]);
    }
  }

  lemma {:induction false} LexTrans(a: seq<int>, b: seq<int>, c: seq<int>)
    requires LexLe(a, b) && LexLe(b, c)
    ensures LexLe(a, c)
    decreases |a|
  {
    if a != [] && a[0] == b[0] && b[0] == c[0] {
      LexTrans(a[1..], b[1..], c[1..]);
    }
  }

  lemma {:induction false} LexAntisym(a: seq<int>, b: seq<int>)
    requires LexLe(a, b) && LexLe(b, a)
    ensures a == b
    decreases |a|
  {
    if a != [] {
      LexAntisym(a[1..], b[1..]);
      assert a == [a[0]] + a[1..] && b == [b[0]] + b[1..];
    }
  }

  ghost predicate SortedBy<T>(s: seq<T>, key: T -> seq<int>)
  {
    forall i, j :: 0 <= i < j < |s| ==> LexLe(key(s[i]), key(s[j]))
  }

  ghost predicate KeysDistinct<T>(s: seq<T>, key: T -> seq<int>)
  {
    forall i, j :: 0 <= i < j < |s| ==> key(s[i]) != key(s[j])
  }

  /** Placing `x` after the elements whose keys do not exceed its own keeps a sorted sequence sorted. */
  lemma InsertedSorted<T>(r: seq<T>, j: nat, x: T, key: T -> seq<int>)
    requires SortedBy(r, key) && j <= |r|
    requires forall k :: 0 <= k < j ==> LexLe(key(r[k]), key(x))
    requires j < |r| ==> !LexLe(key(r[j]), key(x))
    ensures SortedBy(r[..j] + [x] + r[j..], key)
  {
    var r' := r[..j] + [x] + r[j..];
    forall a, b | 0 <= a < b < |r'|
      ensures LexLe(key(r'[a]), key(r'[b]))
    {
      if b < j {
        assert r'[a] == r[a] && r'[b] == r[b];
      } else if b == j {
        assert r'[b] == x && r'[a] == r[a];
      } else if a == j {
        assert r'[a] == x && r'[b] == r[b - 1];
        LexTotal(key(r[j]), key(x));
        if b - 1 > j {
          LexTrans(key(x), key(r[j]), key(r[b - 1]));
        }
      } else if a < j {
        assert r'[a] == r[a] && r'[b] == r[b - 1];
      } else {
        assert r'[a] == r[a - 1] && r'[b] == r[b - 1];
      }
    }
  }

  /** Inserting an element whose key no element shares keeps the keys distinct. */
  lemma InsertedDistinct<T>(r: seq<T>, j: nat, x: T, key: T -> seq<int>)
    requires KeysDistinct(r, key) && j <= |r|
    requires forall y :: y in r ==> key(y) != key(x)
    ensures KeysDistinct(r[..j] + [x] + r[j..], key)
  {
    var r' := r[..j] + [x] + r[j..];
    forall a, b | 0 <= a < b < |r'|
      ensures key(r'[a]) != key(r'[b])
    {
      if b < j {
        assert r'[a] == r[a] && r'[b] == r[b];
      } else if b == j {
        assert r'[b] == x && r'[a] == r[a];
      } else if a == j {
        assert r'[a] == x && r'[b] == r[b - 1];
      } else if a < j {
        assert r'[a] == r[a] && r'[b] == r[b - 1];
      } else {
        assert r'[a] == r[a - 1] && r'[b] == r[b - 1];
      }
    }
  }

  /** Inserts `x` after every element whose key is not above its own. */
  method Insert<T>(r: seq<T>, x: T, key: T -> seq<int>) returns (r': seq<T>)
    requires SortedBy(r, key)
    ensures multiset(r') == multiset(r) + multiset{x}
    ensures SortedBy(r', key)
    ensures KeysDistinct(r, key) && (forall y :: y in r ==> key(y) != key(x)) ==> KeysDistinct(r', key)
  {
    var j := 0;
    while j < |r| && LexLe(key(r[j]), key(x))
      invariant 0 <= j <= |r|
      invariant forall k :: 0 <= k < j ==> LexLe(key(r[k]), key(x))
    {
      j := j + 1;
    }
    InsertedSorted(r, j, x, key);
    if KeysDistinct(r, key) && (forall y :: y in r ==> key(y) != key(x)) {
      InsertedDistinct(r, j, x, key);
    }
    r' := r[..j] + [x] + r[j..];
    assert r == r[..j] + r[j..];
  }

  /**
   * `usort` with a lexicographic comparator: the result is a permutation of
   * the input, ordered by key, and free of key ties when the input was.
   * Nothing is promised about the order of elements with equal keys.
   */
  method SortBy<T>(s: seq<T>, key: T -> seq<int>) returns (r: seq<T>)
    ensures multiset(r) == multiset(s)
    ensures SortedBy(r, key)
    ensures KeysDistinct(s, key) ==> KeysDistinct(r, key)
  {
    r := [];
    for i := 0 to |s|
      invariant multiset(r) == multiset(s[..i])
      invariant SortedBy(r, key)
      invariant KeysDistinct(s, key) ==> KeysDistinct(r, key)
    {
      if KeysDistinct(s, key) {
        forall y | y in r
          ensures key(y) != key(s[i])
        {
          assert y in multiset(s[..i]);
          var m :| 0 <= m < i && s[m] == y;
        }
      }
      r := Insert(r, s[i], key);
      assert s[..i + 1] == s[..i] + [s[i]];
    }
    assert s[..|s|] == s;
  }
}
