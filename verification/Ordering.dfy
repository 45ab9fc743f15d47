/** The order `sort.Strings` uses, and why sorting gives one answer per set of strings.

    Go compares strings byte by byte; on UTF-8 text that is the order of the code points,
    which is the order on `char`. */
module Ordering {
  import opened Seqs

  predicate Leq(a: string, b: string) {
    a == [] || (b != [] && (a[0] < b[0] || (a[0] == b[0] && Leq(a[1..], b[1..]))))
  }

  ghost predicate Sorted(s: seq<string>) {
    forall i, j :: 0 <= i < j < |s| ==> Leq(s[i], s[j])
  }

  /** `ids` lists every element of `members` exactly once, in some order. */
  ghost predicate Enumerates<T(!new)>(ids: seq<T>, members: set<T>) {
    Distinct(ids) && (forall x :: x in ids <==> x in members)
  }

  lemma EnumeratedSet<T(!new)>(ids: seq<T>, members: set<T>)
    requires Enumerates(ids, members)
    ensures (set x | x in ids) == members
  {
  }

  lemma {:induction false} ListSet(s: set<string>) returns (ids: seq<string>)
    ensures Enumerates(ids, s)
    decreases s
  {
    if s == {} {
      return [];
    }
    var x :| x in s;
    var rest := ListSet(s - {x});
    ids := [x] + rest;
    forall y ensures y in ids <==> y in s {
      assert y in rest <==> y in s - {x};
    }
  }

  lemma {:induction false} LeqReflexive(a: string)
    ensures Leq(a, a)
  {
    if a != [] {
      LeqReflexive(a[1..]);
    }
  }

  lemma {:induction false} LeqTotal(a: string, b: string)
    ensures Leq(a, b) || Leq(b, a)
  {
    if a != [] && b != [] && a[0] == b[0] {
      LeqTotal(a[1..], b[1..]);
    }
  }

  lemma {:induction false} LeqAntisymmetric(a: string, b: string)
    requires Leq(a, b) && Leq(b, a)
    ensures a == b
  {
    if a != [] {
      LeqAntisymmetric(a[1..], b[1..]);
      assert a == [a[0]] + a[1..] && b == [b[0]] + b[1..];
    }
  }

  lemma {:induction false} LeqTransitive(a: string, b: string, c: string)
    requires Leq(a, b) && Leq(b, c)
    ensures Leq(a, c)
  {
    if a != [] && a[0] == b[0] && b[0] == c[0] {
      LeqTransitive(a[1..], b[1..], c[1..]);
    }
  }

  function Insert(x: string, s: seq<string>): (r: seq<string>) {
    if s == [] then [x]
    else if Leq(x, s[0]) then [x] + s
    else [s[0]] + Insert(x, s[1..])
  }

  /** `sort.Strings`, as a function of the slice it sorts in place. */
  function Sort(s: seq<string>): (r: seq<string>) {
    if s == [] then [] else Insert(s[0], Sort(s[1..]))
  }

  lemma {:induction false} InsertPermutes(x: string, s: seq<string>)
    ensures multiset(Insert(x, s)) == multiset{x} + multiset(s)
  {
    if s != [] {
      assert s == [s[0]] + s[1..];
      if !Leq(x, s[0]) {
        InsertPermutes(x, s[1..]);
      }
    }
  }

  lemma {:induction false} InsertSorted(x: string, s: seq<string>)
    requires Sorted(s)
    ensures Sorted(Insert(x, s))
  {
    if s != [] {
      if Leq(x, s[0]) {
        forall i | 0 <= i < |s| ensures Leq(x, s[i]) {
          LeqReflexive(s[0]);
          LeqTransitive(x, s[0], s[i]);
        }
      } else {
        LeqTotal(x, s[0]);
        InsertSorted(x, s[1..]);
        InsertPermutes(x, s[1..]);
        var rest := Insert(x, s[1..]);
        forall i | 0 <= i < |rest| ensures Leq(s[0], rest[i]) {
          assert rest[i] in multiset(rest);
          assert rest[i] == x || rest[i] in s[1..];
        }
      }
    }
  }

  /** Sorting reorders and nothing else. */
  lemma {:induction false} SortCorrect(s: seq<string>)
    ensures Sorted(Sort(s))
    ensures multiset(Sort(s)) == multiset(s)
  {
    if s != [] {
      assert s == [s[0]] + s[1..];
      SortCorrect(s[1..]);
      InsertSorted(s[0], Sort(s[1..]));
      InsertPermutes(s[0], Sort(s[1..]));
    }
  }

  lemma HeadIsLeast(a: seq<string>, x: string)
    requires Sorted(a) && x in a
    ensures Leq(a[0], x)
  {
    LeqReflexive(x);
  }

  lemma SortedHeads(a: seq<string>, b: seq<string>)
    requires Sorted(a) && Sorted(b) && a != [] && b != [] && multiset(a) == multiset(b)
    ensures a[0] == b[0]
  {
    assert a[0] in multiset(b) && b[0] in multiset(a);
    HeadIsLeast(b, a[0]);
    HeadIsLeast(a, b[0]);
    LeqAntisymmetric(a[0], b[0]);
  }

  lemma TailMultiset(a: seq<string>)
    requires a != []
    ensures multiset(a[1..]) == multiset(a) - multiset{a[0]}
  {
    assert a == [a[0]] + a[1..];
  }

  /** A sorted sequence is determined by its elements. */
  lemma {:induction false} SortedCanonical(a: seq<string>, b: seq<string>)
    requires Sorted(a) && Sorted(b) && multiset(a) == multiset(b)
    ensures a == b
  {
    assert |a| == |multiset(a)| == |multiset(b)| == |b|;
    if a != [] {
      SortedHeads(a, b);
      TailMultiset(a);
      TailMultiset(b);
      SortedCanonical(a[1..], b[1..]);
      assert a == [a[0]] + a[1..] && b == [b[0]] + b[1..];
    }
  }

  lemma DistinctCons<T>(x: T, s: seq<T>)
    ensures Distinct([x] + s) <==> Distinct(s) && x !in s
  {
    var t := [x] + s;
    if Distinct(t) {
      forall i, j | 0 <= i < j < |s| ensures s[i] != s[j] {
        assert t[i + 1] != t[j + 1];
      }
      forall i | 0 <= i < |s| ensures s[i] != x {
        assert t[0] != t[i + 1];
      }
    }
  }

  lemma {:induction false} DistinctMultiset<T(!new)>(s: seq<T>)
    ensures Distinct(s) <==> forall x :: multiset(s)[x] <= 1
  {
    if s != [] {
      var rest := s[1..];
      assert s == [s[0]] + rest;
      DistinctMultiset(rest);
      DistinctCons(s[0], rest);
      assert forall x :: multiset(s)[x] == multiset(rest)[x] + (if x == s[0] then 1 else 0);
      assert s[0] in rest <==> multiset(rest)[s[0]] >= 1;
    }
  }

  /** Two enumerations of one set are permutations of each other. */
  lemma EnumerationsPermute<T(!new)>(a: seq<T>, b: seq<T>, members: set<T>)
    requires Enumerates(a, members) && Enumerates(b, members)
    ensures multiset(a) == multiset(b)
  {
    DistinctMultiset(a);
    DistinctMultiset(b);
    forall x ensures multiset(a)[x] == multiset(b)[x] {
      assert (x in a <==> x in multiset(a)) && (x in b <==> x in multiset(b));
    }
  }

  lemma ListedIsMember<T(!new)>(ids: seq<T>, members: set<T>, i: int)
    requires Enumerates(ids, members) && 0 <= i < |ids|
    ensures ids[i] in members
  {
  }

  lemma SortEnumerates(ids: seq<string>, members: set<string>)
    requires Enumerates(ids, members)
    ensures Enumerates(Sort(ids), members)
  {
    SortCorrect(ids);
    DistinctMultiset(ids);
    DistinctMultiset(Sort(ids));
    forall x ensures x in Sort(ids) <==> x in members {
      assert x in Sort(ids) <==> x in multiset(Sort(ids));
      assert x in ids <==> x in multiset(ids);
    }
  }

  /** Whatever order a set is listed in, sorting gives the same sequence. */
  lemma SortOrderIrrelevant(a: seq<string>, b: seq<string>, members: set<string>)
    requires Enumerates(a, members) && Enumerates(b, members)
    ensures Sort(a) == Sort(b)
  {
    EnumerationsPermute(a, b, members);
    SortCorrect(a);
    SortCorrect(b);
    SortedCanonical(Sort(a), Sort(b));
  }

  lemma {:induction false} EnumerationSize<T(!new)>(ids: seq<T>, members: set<T>)
    requires Enumerates(ids, members)
    ensures |ids| == |members|
  {
    if ids == [] {
      assert members == {};
    } else {
      assert forall x :: x in ids <==> x == ids[0] || x in ids[1..];
      assert Enumerates(ids[1..], members - {ids[0]});
      EnumerationSize(ids[1..], members - {ids[0]});
    }
  }
}
