/** `std::sort` followed by `std::unique`, and the ordered containers built on the same idea. */
module SortedSets {

  ghost predicate StrictTotal<T(!new)>(less: (T, T) -> bool) {
    && (forall a :: !less(a, a))
    && (forall a, b :: a == b || less(a, b) || less(b, a))
    && (forall a, b, c :: less(a, b) && less(b, c) ==> less(a, c))
  }

  /** Strictly increasing: sorted and without duplicates. */
  ghost predicate Increasing<T>(less: (T, T) -> bool, s: seq<T>) {
    forall i, j | 0 <= i < j < |s| :: less(s[i], s[j])
  }

  /** Puts `x` in its place, unless it is there already. */
  function Insert<T(==)>(less: (T, T) -> bool, s: seq<T>, x: T): seq<T> {
    if s == [] then [x]
    else if less(x, s[0]) then [x] + s
    else if x == s[0] then s
    else [s[0]] + Insert(less, s[1..], x)
  }

  function SortUnique<T(==)>(less: (T, T) -> bool, s: seq<T>): seq<T> {
    if s == [] then [] else Insert(less, SortUnique(less, s[..|s| - 1]), s[|s| - 1])
  }

  lemma {:induction false} InsertIsSorted<T(!new)>(less: (T, T) -> bool, s: seq<T>, x: T)
    requires StrictTotal(less) && Increasing(less, s)
    ensures Increasing(less, Insert(less, s, x))
    ensures forall y :: y in Insert(less, s, x) <==> y in s || y == x
  {
    if s == [] || less(x, s[0]) || x == s[0] {
    } else {
      InsertIsSorted(less, s[1..], x);
      assert s == [s[0]] + s[1..];
    }
  }

  /** Sorting and deduplicating keeps exactly the elements and puts them in strict order. */
  lemma {:induction false} SortUniqueSorts<T(!new)>(less: (T, T) -> bool, s: seq<T>)
    requires StrictTotal(less)
    ensures Increasing(less, SortUnique(less, s))
    ensures forall y :: y in SortUnique(less, s) <==> y in s
  {
    if s != [] {
      var front := s[..|s| - 1];
      SortUniqueSorts(less, front);
      InsertIsSorted(less, SortUnique(less, front), s[|s| - 1]);
      assert s == front + [s[|s| - 1]];
    }
  }

  /** Only one strictly increasing sequence has a given set of elements. */
  lemma {:induction false} IncreasingIsCanonical<T(!new)>(less: (T, T) -> bool, s: seq<T>, t: seq<T>)
    requires StrictTotal(less) && Increasing(less, s) && Increasing(less, t)
    requires forall x :: x in s <==> x in t
    ensures s == t
  {
    if s == [] {
      assert forall i | 0 <= i < |t| :: t[i] in t;
    } else {
      assert s[0] in t;
      assert t[0] in s;
      var i :| 0 <= i < |s| && s[i] == t[0];
      var j :| 0 <= j < |t| && t[j] == s[0];
      assert i == 0 && j == 0;
      var s', t' := s[1..], t[1..];
      forall x ensures x in s' <==> x in t' {
        if x in s' {
          var k :| 0 <= k < |s'| && s'[k] == x;
          assert s[k + 1] == x && less(s[0], x);
          assert x in t;
        }
        if x in t' {
          var k :| 0 <= k < |t'| && t'[k] == x;
          assert t[k + 1] == x && less(t[0], x);
          assert x in s;
        }
      }
      IncreasingIsCanonical(less, s', t');
    }
  }

  const LESS_INT: (int, int) -> bool := (a: int, b: int) => a < b

  lemma LessIntIsTotal()
    ensures StrictTotal(LESS_INT)
  {
  }

  /** The byte order of `std::string`. */
  predicate LessString(a: string, b: string) {
    b != "" && (a == "" || a[0] < b[0] || (a[0] == b[0] && LessString(a[1..], b[1..])))
  }

  const LESS_STRING: (string, string) -> bool := (a: string, b: string) => LessString(a, b)

  lemma {:induction false} LessStringIrreflexive(a: string)
    ensures !LessString(a, a)
  {
    if a != "" { LessStringIrreflexive(a[1..]); }
  }

  lemma {:induction false} LessStringConnected(a: string, b: string)
    ensures a == b || LessString(a, b) || LessString(b, a)
  {
    if a != "" && b != "" && a[0] == b[0] {
      LessStringConnected(a[1..], b[1..]);
      assert a == [a[0]] + a[1..] && b == [b[0]] + b[1..];
    }
  }

  lemma {:induction false} LessStringTransitive(a: string, b: string, c: string)
    requires LessString(a, b) && LessString(b, c)
    ensures LessString(a, c)
  {
    if a != "" && a[0] == b[0] && b[0] == c[0] {
      LessStringTransitive(a[1..], b[1..], c[1..]);
    }
  }

  lemma LessStringIsTotal()
    ensures StrictTotal(LESS_STRING)
  {
    forall a: string ensures !LESS_STRING(a, a) { LessStringIrreflexive(a); }
    forall a: string, b: string ensures a == b || LESS_STRING(a, b) || LESS_STRING(b, a) {
      LessStringConnected(a, b);
    }
    forall a: string, b: string, c: string | LESS_STRING(a, b) && LESS_STRING(b, c)
      ensures LESS_STRING(a, c)
    {
      LessStringTransitive(a, b, c);
    }
  }
}
