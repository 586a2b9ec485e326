/** Members and repetitions of lists. */
module Lists {

  ghost predicate NoRepeats<T>(s: seq<T>) { forall i, j :: 0 <= i < j < |s| ==> s[i] != s[j] }

  lemma TailOfAppend<T>(s: seq<T>, x: T)
    requires s != []
    ensures (s + [x])[0] == s[0] && (s + [x])[1..] == s[1..] + [x]
  {
  }

  ghost function Elems<T>(s: seq<T>): (r: set<T>) { set x | x in s }

  lemma {:induction false} SameMembers<T>(a: seq<T>, b: seq<T>, x: T)
    requires multiset(a) == multiset(b)
    ensures x in a <==> x in b
  {
    assert x in multiset(a) <==> x in a;
    assert x in multiset(b) <==> x in b;
  }

  lemma CountTwice<T>(a: seq<T>, i: nat, j: nat)
    requires i < j < |a| && a[i] == a[j]
    ensures multiset(a)[a[i]] >= 2
  {
    assert a == a[..j] + [a[j]] + a[j + 1..];
    assert a[..j][i] == a[i];
    assert multiset(a[..j])[a[i]] >= 1;
  }

  lemma {:induction false} CountOnce<T>(a: seq<T>, x: T)
    requires NoRepeats(a)
    ensures multiset(a)[x] == if x in a then 1 else 0
  {
    if a != [] {
      assert a == [a[0]] + a[1..];
      CountOnce(a[1..], x);
    }
  }

  /** A rearrangement of a list without repetitions has none. */
  lemma PermutedNoRepeats<T>(a: seq<T>, b: seq<T>)
    requires NoRepeats(a) && multiset(a) == multiset(b)
    ensures NoRepeats(b)
  {
    forall i, j | 0 <= i < j < |b| ensures b[i] != b[j] {
      if b[i] == b[j] {
        CountTwice(b, i, j);
        CountOnce(a, b[i]);
      }
    }
  }

  lemma {:induction false} SizeNoRepeats<T>(s: seq<T>)
    requires NoRepeats(s)
    ensures |Elems(s)| == |s|
  {
    if s == [] {
      assert Elems(s) == {};
    } else {
      var t := s[..|s| - 1];
      SizeNoRepeats(t);
      assert s == t + [s[|s| - 1]];
      assert Elems(s) == Elems(t) + {s[|s| - 1]};
    }
  }
}

/** Byte-wise string order and sorting, as Go's < and sort package provide them. */
module Order {
  import opened Lists

  /** a < b in lexicographic order. */
  predicate Less(a: string, b: string) {
    b != [] && (a == [] || a[0] < b[0] || (a[0] == b[0] && Less(a[1..], b[1..])))
  }

  predicate AtMost(a: string, b: string) { a == b || Less(a, b) }

  lemma LessIrreflexive(a: string)
    ensures !Less(a, a)
  {
  }

  lemma {:induction false} LessTransitive(a: string, b: string, c: string)
    requires Less(a, b) && Less(b, c)
    ensures Less(a, c)
  {
    if a != [] && a[0] == b[0] == c[0] {
      LessTransitive(a[1..], b[1..], c[1..]);
    }
  }

  lemma {:induction false} LessTotal(a: string, b: string)
    ensures a == b || Less(a, b) || Less(b, a)
  {
    if a != [] && b != [] && a[0] == b[0] {
      LessTotal(a[1..], b[1..]);
      assert a == [a[0]] + a[1..] && b == [b[0]] + b[1..];
    }
  }

  lemma LessAsymmetric(a: string, b: string)
    ensures !(Less(a, b) && Less(b, a))
  {
  }

  lemma LessAtMost(a: string, b: string, c: string)
    requires (AtMost(a, b) && Less(b, c)) || (Less(a, b) && AtMost(b, c))
    ensures Less(a, c)
  {
    if a != b && b != c { LessTransitive(a, b, c); }
  }

  /** x put into s before the first element it precedes. */
  function Insert<T>(before: (T, T) -> bool, x: T, s: seq<T>): (r: seq<T>)
    ensures multiset(r) == multiset(s) + multiset{x}
  {
    if s == [] then [x]
    else if before(x, s[0]) then [x] + s
    else
      assert s == [s[0]] + s[1..];
      [s[0]] + Insert(before, x, s[1..])
  }

  function Sort<T>(before: (T, T) -> bool, s: seq<T>): (r: seq<T>)
    ensures multiset(r) == multiset(s)
  {
    if s == [] then [] else
      assert s == [s[0]] + s[1..];
      Insert(before, s[0], Sort(before, s[1..]))
  }

  ghost predicate Sorted<T>(before: (T, T) -> bool, s: seq<T>) {
    forall i, j :: 0 <= i < j < |s| ==> before(s[i], s[j])
  }

  /** before is a strict total order on the elements of s. */
  ghost predicate Orders<T>(before: (T, T) -> bool, s: seq<T>) {
    && (forall x, y :: x in s && y in s && x != y ==> before(x, y) || before(y, x))
    && (forall x, y :: x in s && y in s && before(x, y) ==> !before(y, x))
    && (forall x, y, z :: x in s && y in s && z in s && before(x, y) && before(y, z) ==> before(x, z))
  }

  lemma StringsOrdered(s: seq<string>)
    ensures Orders(Less, s)
  {
    forall x, y, z ensures x != y ==> Less(x, y) || Less(y, x)
                   ensures Less(x, y) ==> !Less(y, x)
                   ensures Less(x, y) && Less(y, z) ==> Less(x, z) {
      LessTotal(x, y);
      LessAsymmetric(x, y);
      if Less(x, y) && Less(y, z) { LessTransitive(x, y, z); }
    }
  }

  lemma {:induction false} InsertSorted<T>(before: (T, T) -> bool, x: T, s: seq<T>)
    requires Orders(before, [x] + s) && Sorted(before, s) && x !in s
    ensures Sorted(before, Insert(before, x, s))
  {
    if s != [] {
      assert s[0] in [x] + s && x in [x] + s;
      if before(x, s[0]) {
        forall j | 0 <= j < |s| ensures before(x, s[j]) {
          assert s[j] in [x] + s;
        }
      } else {
        var t := s[1..];
        forall y | y in [x] + t ensures y in [x] + s {}
        InsertSorted(before, x, t);
        forall y | y in Insert(before, x, t) ensures before(s[0], y) {
          SameMembers(Insert(before, x, t), t + [x], y);
          if y != x { var j :| 0 <= j < |t| && t[j] == y; assert t[j] == s[j + 1]; }
        }
      }
    }
  }

  /** Sorting distinct elements by a strict total order yields them in that order. */
  lemma {:induction false} SortSorted<T>(before: (T, T) -> bool, s: seq<T>)
    requires Orders(before, s) && NoRepeats(s)
    ensures Sorted(before, Sort(before, s))
  {
    if s != [] {
      var t := s[1..];
      forall y | y in t ensures y in s {}
      SortSorted(before, t);
      var r := Sort(before, t);
      forall y | y in [s[0]] + r ensures y in s { if y in r { SameMembers(r, t, y); } }
      if s[0] in r { SameMembers(r, t, s[0]); }
      InsertSorted(before, s[0], r);
    }
  }
}
