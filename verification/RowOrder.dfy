/** Source rows and the total order that the external sort compares them by. */
module RowOrder {

  /** One CSV record: its code and name, its ancestor codes from the province down, and any other columns. */
  datatype SourceRow = SourceRow(code: string, name: string, ancestors: seq<string>, extra: seq<string>)

  function CompareStrings(a: string, b: string): (c: int)
    ensures c == 0 <==> a == b
    ensures -1 <= c <= 1
  {
    if a == [] && b == [] then 0
    else if a == [] then -1
    else if b == [] then 1
    else if a[0] != b[0] then (if a[0] < b[0] then -1 else 1)
    else
      assert a == [a[0]] + a[1..] && b == [b[0]] + b[1..];
      CompareStrings(a[1..], b[1..])
  }

  function CompareLists(a: seq<string>, b: seq<string>): (c: int)
    ensures c == 0 <==> a == b
    ensures -1 <= c <= 1
  {
    if a == [] && b == [] then 0
    else if a == [] then -1
    else if b == [] then 1
    else if a[0] != b[0] then CompareStrings(a[0], b[0])
    else
      assert a == [a[0]] + a[1..] && b == [b[0]] + b[1..];
      CompareLists(a[1..], b[1..])
  }

  /** The whole record as one comparable value; records of one file have the same columns. */
  function SourceTuple(r: SourceRow): seq<seq<string>> { [[r.code], [r.name], r.ancestors, r.extra] }

  function CompareTuples(a: seq<seq<string>>, b: seq<seq<string>>): (c: int)
    ensures c == 0 <==> a == b
    ensures -1 <= c <= 1
  {
    if a == [] && b == [] then 0
    else if a == [] then -1
    else if b == [] then 1
    else if a[0] != b[0] then CompareLists(a[0], b[0])
    else
      assert a == [a[0]] + a[1..] && b == [b[0]] + b[1..];
      CompareTuples(a[1..], b[1..])
  }

  /** By code first, then by the whole tuple. */
  function Compare(left: SourceRow, right: SourceRow): int {
    if left.code != right.code then CompareStrings(left.code, right.code)
    else CompareTuples(SourceTuple(left), SourceTuple(right))
  }

  /** The first place where two strings differ decides; a string comes before those it begins. */
  predicate ComesBefore(a: string, b: string) {
    exists n :: 0 <= n <= |a| && n <= |b| && a[..n] == b[..n] && n < |b| && (n == |a| || a[n] < b[n])
  }

  lemma {:induction false} ComesBeforeIff(a: string, b: string)
    ensures CompareStrings(a, b) < 0 <==> ComesBefore(a, b)
  {
    if a == [] {
      assert b != [] ==> a[..0] == b[..0];
    } else if b != [] {
      if a[0] != b[0] {
        assert a[..0] == b[..0];
        forall n | 0 < n <= |a| && n <= |b| ensures a[..n] != b[..n] { assert a[..n][0] == a[0] && b[..n][0] == b[0]; }
      } else {
        ComesBeforeIff(a[1..], b[1..]);
        ComesBeforeTail(a, b);
      }
    }
  }

  lemma ComesBeforeTail(a: string, b: string)
    requires a != [] && b != [] && a[0] == b[0]
    ensures ComesBefore(a, b) <==> ComesBefore(a[1..], b[1..])
  {
    if n :| 0 <= n <= |a| && n <= |b| && a[..n] == b[..n] && n < |b| && (n == |a| || a[n] < b[n]) {
      assert n > 0;
      assert a[1..][..n - 1] == a[..n][1..] && b[1..][..n - 1] == b[..n][1..];
    }
    if n :| 0 <= n <= |a[1..]| && n <= |b[1..]| && a[1..][..n] == b[1..][..n] && n < |b[1..]| && (n == |a[1..]| || a[1..][n] < b[1..][n]) {
      assert a[..n + 1] == [a[0]] + a[1..][..n] && b[..n + 1] == [b[0]] + b[1..][..n];
    }
  }

  /** Records are sorted by code: a smaller code always comes first. */
  lemma SmallerCodeFirst(a: SourceRow, b: SourceRow)
    ensures ComesBefore(a.code, b.code) ==> Compare(a, b) < 0
  {
    ComesBeforeIff(a.code, b.code);
  }

  // ----- the comparisons are total orders -----

  lemma {:induction false} StringsOrdered(a: string, b: string, c: string)
    ensures CompareStrings(a, b) == -CompareStrings(b, a)
    ensures CompareStrings(a, b) <= 0 && CompareStrings(b, c) <= 0 ==> CompareStrings(a, c) <= 0
  {
    if a != [] && b != [] {
      StringsOrdered(a[1..], b[1..], if c == [] then [] else c[1..]);
    }
  }

  lemma {:induction false} ListsOrdered(a: seq<string>, b: seq<string>, c: seq<string>)
    ensures CompareLists(a, b) == -CompareLists(b, a)
    ensures CompareLists(a, b) <= 0 && CompareLists(b, c) <= 0 ==> CompareLists(a, c) <= 0
  {
    if a != [] && b != [] {
      StringsOrdered(a[0], b[0], if c == [] then [] else c[0]);
      if c != [] { StringsOrdered(c[0], a[0], b[0]); }
      ListsOrdered(a[1..], b[1..], if c == [] then [] else c[1..]);
    }
  }

  lemma {:induction false} TuplesOrdered(a: seq<seq<string>>, b: seq<seq<string>>, c: seq<seq<string>>)
    ensures CompareTuples(a, b) == -CompareTuples(b, a)
    ensures CompareTuples(a, b) <= 0 && CompareTuples(b, c) <= 0 ==> CompareTuples(a, c) <= 0
  {
    if a != [] && b != [] {
      ListsOrdered(a[0], b[0], if c == [] then [] else c[0]);
      if c != [] { ListsOrdered(c[0], a[0], b[0]); }
      TuplesOrdered(a[1..], b[1..], if c == [] then [] else c[1..]);
    }
  }

  predicate Le(a: SourceRow, b: SourceRow) { Compare(a, b) <= 0 }

  lemma RowsOrdered(a: SourceRow, b: SourceRow, c: SourceRow)
    ensures Le(a, a) && (Le(a, b) || Le(b, a))
    ensures Le(a, b) && Le(b, a) ==> a == b
    ensures Le(a, b) && Le(b, c) ==> Le(a, c)
    ensures Compare(a, b) < 0 <==> !Le(b, a)
  {
    StringsOrdered(a.code, b.code, c.code);
    StringsOrdered(c.code, a.code, b.code);
    TuplesOrdered(SourceTuple(a), SourceTuple(b), SourceTuple(c));
    if SourceTuple(a) == SourceTuple(b) {
      assert SourceTuple(a)[0][0] == SourceTuple(b)[0][0] && SourceTuple(a)[1][0] == SourceTuple(b)[1][0];
      assert SourceTuple(a)[2] == SourceTuple(b)[2] && SourceTuple(a)[3] == SourceTuple(b)[3];
    }
  }

  // ----- ascending codes -----

  predicate AscendingCodes(codes: seq<string>) { forall i, j | 0 <= i < j < |codes| :: CompareStrings(codes[i], codes[j]) < 0 }

  lemma SameEmptiness(a: seq<string>, b: seq<string>)
    requires forall c :: c in a <==> c in b
    ensures a == [] <==> b == []
  {
    if a != [] { assert a[0] in b; }
    if b != [] { assert b[0] in a; }
  }

  lemma NotFirst(codes: seq<string>, c: string)
    requires codes != [] && AscendingCodes(codes)
    ensures c in codes[1..] <==> c in codes && c != codes[0]
  {
    if c in codes[1..] {
      var i :| 0 <= i < |codes| - 1 && codes[1..][i] == c;
      assert CompareStrings(codes[0], codes[i + 1]) < 0;
    }
    if c in codes && c != codes[0] {
      var i :| 0 <= i < |codes| && codes[i] == c;
      assert codes[1..][i - 1] == c;
    }
  }

  /** A set of codes has one ascending listing. */
  lemma {:induction false} ListingUnique(a: seq<string>, b: seq<string>)
    requires AscendingCodes(a) && AscendingCodes(b) && forall c :: c in a <==> c in b
    ensures a == b
  {
    SameEmptiness(a, b);
    if a != [] {
      assert a[0] in b && b[0] in a;
      StringsOrdered(a[0], b[0], a[0]);
      assert a[0] == b[0];
      forall c ensures c in a[1..] <==> c in b[1..] {
        NotFirst(a, c);
        NotFirst(b, c);
      }
      ListingUnique(a[1..], b[1..]);
      assert a == [a[0]] + a[1..] && b == [b[0]] + b[1..];
    }
  }
}
