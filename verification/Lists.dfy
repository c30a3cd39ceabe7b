/** Array operations: filtering, cutting, collecting into a Set, and stable sorting. */
module Lists {
  function Filter<T>(s: seq<T>, p: T -> bool): (r: seq<T>)
    ensures |r| <= |s|
  {
    if s == [] then [] else (if p(s[0]) then [s[0]] else []) + Filter(s[1..], p)
  }

  lemma {:induction false} FilterMember<T(!new)>(s: seq<T>, p: T -> bool, x: T)
    ensures x in Filter(s, p) <==> x in s && p(x)
  {
    if s != [] {
      FilterMember(s[1..], p, x);
      assert s == [s[0]] + s[1..];
    }
  }

  lemma FilterHead<T>(s: seq<T>, p: T -> bool)
    ensures Filter(s, p) == if s == [] then [] else (if p(s[0]) then [s[0]] else []) + Filter(s[1..], p)
  {
  }

  lemma {:induction false} FilterAppend<T>(s: seq<T>, x: T, p: T -> bool)
    ensures Filter(s + [x], p) == Filter(s, p) + if p(x) then [x] else []
  {
    FilterHead(s, p);
    FilterHead(s + [x], p);
    FilterHead([], p);
    hide Filter;
    if s == [] {
      assert s + [x] == [x];
    } else {
      FilterAppend(s[1..], x, p);
      assert (s + [x])[0] == s[0] && (s + [x])[1..] == s[1..] + [x];
    }
  }

  /** slice(0, n) */
  function Take<T>(s: seq<T>, n: nat): seq<T> {
    if |s| <= n then s else s[..n]
  }

  predicate NoDuplicates<T(==)>(s: seq<T>) {
    forall i, j :: 0 <= i < j < |s| ==> s[i] != s[j]
  }

  /** The elements in order of first occurrence, as iterating a Set built from `s` lists them. */
  function Distinct<T(==, !new)>(s: seq<T>): (r: seq<T>)
    ensures NoDuplicates(r) && |r| <= |s|
    ensures forall x :: x in r <==> x in s
  {
    if s == [] then []
    else
      var r := Distinct(s[..|s| - 1]);
      assert s == s[..|s| - 1] + [s[|s| - 1]];
      if s[|s| - 1] in r then r else r + [s[|s| - 1]]
  }

  // Stable sorting, as Array.prototype.sort performs it: `ahead(a, b)` says that a may stand before b.

  function Insert<T>(x: T, s: seq<T>, ahead: (T, T) -> bool): seq<T> {
    if s == [] || ahead(x, s[0]) then [x] + s else [s[0]] + Insert(x, s[1..], ahead)
  }

  function SortBy<T>(s: seq<T>, ahead: (T, T) -> bool): seq<T> {
    if s == [] then [] else Insert(s[0], SortBy(s[1..], ahead), ahead)
  }

  ghost predicate TotalPreorder<T(!new)>(ahead: (T, T) -> bool) {
    && (forall a, b :: ahead(a, b) || ahead(b, a))
    && (forall a, b, c :: ahead(a, b) && ahead(b, c) ==> ahead(a, c))
  }

  ghost predicate Sorted<T>(s: seq<T>, ahead: (T, T) -> bool) {
    forall i, j :: 0 <= i < j < |s| ==> ahead(s[i], s[j])
  }

  lemma {:induction false} InsertPermutes<T(!new)>(x: T, s: seq<T>, ahead: (T, T) -> bool)
    ensures multiset(Insert(x, s, ahead)) == multiset{x} + multiset(s)
  {
    if s != [] && !ahead(x, s[0]) {
      InsertPermutes(x, s[1..], ahead);
      assert s == [s[0]] + s[1..];
    }
  }

  lemma {:induction false} SortByPermutes<T(!new)>(s: seq<T>, ahead: (T, T) -> bool)
    ensures multiset(SortBy(s, ahead)) == multiset(s)
    ensures |SortBy(s, ahead)| == |s|
  {
    if s != [] {
      SortByPermutes(s[1..], ahead);
      InsertPermutes(s[0], SortBy(s[1..], ahead), ahead);
      assert s == [s[0]] + s[1..];
    }
    assert |multiset(SortBy(s, ahead))| == |multiset(s)|;
  }

  lemma {:induction false} InsertSorted<T(!new)>(x: T, s: seq<T>, ahead: (T, T) -> bool)
    requires TotalPreorder(ahead) && Sorted(s, ahead)
    ensures Sorted(Insert(x, s, ahead), ahead)
    ensures forall i :: 0 <= i < |Insert(x, s, ahead)| ==> Insert(x, s, ahead)[i] == x || Insert(x, s, ahead)[i] in s
  {
    if s != [] && !ahead(x, s[0]) {
      InsertSorted(x, s[1..], ahead);
      assert s == [s[0]] + s[1..];
    }
  }

  lemma {:induction false} SortBySorts<T(!new)>(s: seq<T>, ahead: (T, T) -> bool)
    requires TotalPreorder(ahead)
    ensures Sorted(SortBy(s, ahead), ahead)
  {
    if s != [] {
      SortBySorts(s[1..], ahead);
      InsertSorted(s[0], SortBy(s[1..], ahead), ahead);
    }
  }
}
