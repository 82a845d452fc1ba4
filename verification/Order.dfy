/** String order and sorting: what `sort.Strings` promises its callers. */
module Order {

  /** Lexicographic order on strings, character by character. */
  predicate Less(a: string, b: string) {
    |b| != 0 &&
    (|a| == 0 || a[0] < b[0] || (a[0] == b[0] && Less(a[1..], b[1..])))
  }

  /** The first `k` characters agree; then `a` ends, or goes on with the smaller one. */
  predicate DiffersAt(a: string, b: string, k: int) {
    0 <= k <= |a| && k < |b| && a[..k] == b[..k] && (k == |a| || a[k] < b[k])
  }

  lemma {:induction false} LessExactly(a: string, b: string)
    ensures Less(a, b) <==> exists k :: DiffersAt(a, b, k)
  {
    if Less(a, b) { var k := FirstDifference(a, b); }
    if k :| DiffersAt(a, b, k) { LessFrom(a, b, k); }
  }

  lemma {:induction false} FirstDifference(a: string, b: string) returns (k: int)
    requires Less(a, b)
    ensures DiffersAt(a, b, k)
  {
    k := 0;
    if |a| > 0 && a[0] == b[0] {
      var i := FirstDifference(a[1..], b[1..]);
      k := i + 1;
      assert a[..k] == [a[0]] + a[1..][..i] && b[..k] == [b[0]] + b[1..][..i];
    }
  }

  lemma {:induction false} LessFrom(a: string, b: string, k: int)
    requires DiffersAt(a, b, k)
    ensures Less(a, b)
  {
    if k > 0 {
      assert a[0] == a[..k][0] == b[..k][0] == b[0];
      assert a[1..][..k - 1] == a[..k][1..] == b[..k][1..] == b[1..][..k - 1];
      LessFrom(a[1..], b[1..], k - 1);
    }
  }

  predicate Sorted(s: seq<string>) {
    forall i, j :: 0 <= i < j < |s| ==> !Less(s[j], s[i])
  }

  predicate StrictlySorted(s: seq<string>) {
    forall i, j :: 0 <= i < j < |s| ==> Less(s[i], s[j])
  }

  predicate NoDup<T(==)>(s: seq<T>) {
    forall i, j :: 0 <= i < j < |s| ==> s[i] != s[j]
  }

  function Elements<T>(s: seq<T>): set<T> {
    set x | x in s
  }

  lemma ElementsOfConcat<T>(a: seq<T>, b: seq<T>)
    ensures Elements(a + b) == Elements(a) + Elements(b)
  {
  }

  /** A list has as many elements as entries exactly if it repeats none. */
  lemma {:induction false} SizeOfElements<T>(s: seq<T>)
    ensures |Elements(s)| <= |s| && (|Elements(s)| == |s| <==> NoDup(s))
  {
    if |s| > 0 {
      var front, last := s[..|s| - 1], s[|s| - 1];
      SizeOfElements(front);
      assert s == front + [last];
      assert Elements(s) == Elements(front) + {last};
      if last in front { assert Elements(s) == Elements(front); }
    }
  }

  lemma {:induction false} LessIrreflexive(a: string)
    ensures !Less(a, a)
  {
    if |a| > 0 { LessIrreflexive(a[1..]); }
  }

  lemma {:induction false} LessTransitive(a: string, b: string, c: string)
    requires Less(a, b) && Less(b, c)
    ensures Less(a, c)
  {
    if |a| > 0 && a[0] == b[0] && b[0] == c[0] { LessTransitive(a[1..], b[1..], c[1..]); }
  }

  lemma {:induction false} LessTotal(a: string, b: string)
    ensures Less(a, b) || a == b || Less(b, a)
  {
    if |a| > 0 && |b| > 0 && a[0] == b[0] {
      LessTotal(a[1..], b[1..]);
      if a[1..] == b[1..] {
        assert a == [a[0]] + a[1..] && b == [b[0]] + b[1..];
      }
    }
  }

  /** `x` placed before the first element of `s` that is not below it. */
  function Insert(x: string, s: seq<string>): seq<string> {
    if |s| == 0 then [x]
    else if Less(s[0], x) then [s[0]] + Insert(x, s[1..])
    else [x] + s
  }

  function Sort(s: seq<string>): seq<string> {
    if |s| == 0 then [] else Insert(s[0], Sort(s[1..]))
  }

  lemma {:induction false} InsertAdds(x: string, s: seq<string>)
    ensures multiset(Insert(x, s)) == multiset{x} + multiset(s)
  {
    if |s| > 0 {
      assert s == [s[0]] + s[1..];
      if Less(s[0], x) { InsertAdds(x, s[1..]); }
    }
  }

  lemma {:induction false} InsertKeeps(x: string, s: seq<string>)
    requires Sorted(s)
    ensures Sorted(Insert(x, s)) && multiset(Insert(x, s)) == multiset{x} + multiset(s)
  {
    InsertAdds(x, s);
    if |s| > 0 {
      if Less(s[0], x) {
        InsertKeeps(x, s[1..]);
        LeastFirst(s[0], x, s[1..], Insert(x, s[1..]));
      } else {
        NoneBelow(x, s);
      }
    }
  }

  lemma NoneBelow(x: string, s: seq<string>)
    requires Sorted(s) && |s| > 0 && !Less(s[0], x)
    ensures forall j :: 0 <= j < |s| ==> !Less(s[j], x)
  {
    forall j | 0 <= j < |s| ensures !Less(s[j], x) {
      LessTotal(x, s[0]);
      if j > 0 && Less(s[j], x) && s[0] != x { LessTransitive(s[j], x, s[0]); }
    }
  }

  lemma LeastFirst(least: string, x: string, s: seq<string>, t: seq<string>)
    requires Less(least, x) && (forall j :: 0 <= j < |s| ==> !Less(s[j], least))
    requires multiset(t) == multiset{x} + multiset(s)
    ensures forall j :: 0 <= j < |t| ==> !Less(t[j], least)
  {
    forall j | 0 <= j < |t| ensures !Less(t[j], least) {
      assert t[j] in multiset(t);
      if t[j] == x {
        if Less(x, least) { LessTransitive(least, x, least); LessIrreflexive(least); }
      } else {
        assert t[j] in multiset(s);
      }
    }
  }

  /** Sorting yields a sorted permutation. */
  lemma {:induction false} SortSorts(s: seq<string>)
    ensures Sorted(Sort(s)) && multiset(Sort(s)) == multiset(s)
  {
    if |s| > 0 {
      SortSorts(s[1..]);
      InsertKeeps(s[0], Sort(s[1..]));
      assert s == [s[0]] + s[1..];
    }
  }

  /** A sorted permutation is unique, so `Sort` is the only function meeting its contract. */
  lemma {:induction false} SortedIsUnique(a: seq<string>, b: seq<string>)
    requires Sorted(a) && Sorted(b) && multiset(a) == multiset(b)
    ensures a == b
  {
    assert |multiset(a)| == |multiset(b)|;
    if |a| > 0 {
      HeadIsLeast(a, b);
      HeadIsLeast(b, a);
      LessTotal(a[0], b[0]);
      RestOf(a);
      RestOf(b);
      SortedIsUnique(a[1..], b[1..]);
      assert a == [a[0]] + a[1..] && b == [b[0]] + b[1..];
    }
  }

  lemma RestOf<T>(a: seq<T>)
    requires |a| > 0
    ensures multiset(a[1..]) == multiset(a) - multiset{a[0]}
  {
    assert a == [a[0]] + a[1..];
  }

  lemma HeadIsLeast(a: seq<string>, b: seq<string>)
    requires Sorted(a) && multiset(a) == multiset(b) && |a| > 0 && |b| > 0
    ensures !Less(b[0], a[0])
  {
    assert b[0] in multiset(a);
    var i :| 0 <= i < |a| && a[i] == b[0];
    if i == 0 { LessIrreflexive(a[0]); }
  }

  lemma SortOfPermutation(a: seq<string>, b: seq<string>)
    requires multiset(a) == multiset(b)
    ensures Sort(a) == Sort(b)
  {
    SortSorts(a);
    SortSorts(b);
    SortedIsUnique(Sort(a), Sort(b));
  }

  lemma SortOfSorted(s: seq<string>)
    requires Sorted(s)
    ensures Sort(s) == s
  {
  }

  lemma SortElements(s: seq<string>)
    ensures |Sort(s)| == |s| && forall x :: x in Sort(s) <==> x in s
  {
    SortSorts(s);
    assert |multiset(Sort(s))| == |multiset(s)|;
    forall x ensures x in Sort(s) <==> x in s {
      assert x in Sort(s) <==> x in multiset(Sort(s));
      assert x in s <==> x in multiset(s);
    }
  }

  lemma NoDupMultiset<T>(s: seq<T>)
    ensures NoDup(s) <==> forall x :: multiset(s)[x] <= 1
  {
    if |s| > 0 {
      var t := s[1..];
      NoDupMultiset(t);
      assert s == [s[0]] + t;
      assert multiset(s) == multiset{s[0]} + multiset(t);
      if NoDup(s) {
        assert NoDup(t);
        assert s[0] !in t;
      }
      if forall x :: multiset(s)[x] <= 1 {
        forall x ensures multiset(t)[x] <= 1 { assert multiset(t)[x] <= multiset(s)[x]; }
        assert s[0] !in t by { assert multiset(s)[s[0]] <= 1; }
      }
    }
  }

  /** A list without repeats sorts to a strictly ascending list, and back. */
  lemma SortNoDup(s: seq<string>)
    ensures NoDup(s) <==> NoDup(Sort(s))
    ensures NoDup(s) <==> StrictlySorted(Sort(s))
  {
    SortSorts(s);
    NoDupMultiset(s);
    NoDupMultiset(Sort(s));
    var t := Sort(s);
    if NoDup(t) {
      forall i, j | 0 <= i < j < |t| ensures Less(t[i], t[j]) { LessTotal(t[i], t[j]); }
    }
    if StrictlySorted(t) {
      forall i, j | 0 <= i < j < |t| ensures t[i] != t[j] { LessIrreflexive(t[i]); }
    }
  }

  /** The in-place library sort. */
  method SortStrings(a: array<string>)
    modifies a
    ensures a[..] == Sort(old(a[..]))
  {
    var s := Sort(a[..]);
    SortElements(a[..]);
    forall i | 0 <= i < a.Length { a[i] := s[i]; }
    assert a[..] == s;
  }
}
