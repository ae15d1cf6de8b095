/** Sets of codes in code order, read page by page. */
module CodeOrder {
  import opened RowOrder

  const PAGE := 1000

  predicate IsLeast(codes: set<string>, least: string) { least in codes && forall c | c in codes :: CompareStrings(least, c) <= 0 }

  lemma {:induction false} HasLeast(codes: set<string>)
    requires codes != {}
    ensures exists least :: IsLeast(codes, least)
  {
    var c :| c in codes;
    var rest := codes - {c};
    StringsOrdered(c, c, c);
    if rest == {} {
      assert codes == {c};
      assert IsLeast(codes, c);
    } else {
      HasLeast(rest);
      var l :| IsLeast(rest, l);
      var least := if CompareStrings(c, l) <= 0 then c else l;
      forall d | d in codes ensures CompareStrings(least, d) <= 0 {
        StringsOrdered(c, l, d);
        StringsOrdered(l, c, l);
      }
      assert IsLeast(codes, least);
    }
  }

  lemma LeastIsUnique(codes: set<string>)
    ensures forall a, b | IsLeast(codes, a) && IsLeast(codes, b) :: a == b
  {
    forall a, b | IsLeast(codes, a) && IsLeast(codes, b) ensures a == b { StringsOrdered(a, b, a); }
  }

  /** ORDER BY code. */
  function InOrder(codes: set<string>): (r: seq<string>)
    ensures AscendingCodes(r) && forall c :: c in r <==> c in codes
  {
    if codes == {} then [] else
      HasLeast(codes);
      LeastIsUnique(codes);
      var least :| IsLeast(codes, least);
      [least] + InOrder(codes - {least})
  }

  /** One keyset page: the next codes strictly after a cursor. */
  function PageAfter(codes: seq<string>, after: string): seq<string> {
    if codes == [] then []
    else if CompareStrings(codes[0], after) <= 0 then PageAfter(codes[1..], after)
    else if |codes| <= PAGE then codes else codes[..PAGE]
  }

  function PageEnd(codes: seq<string>, n: nat): nat
    requires n <= |codes|
  {
    if n + PAGE < |codes| then n + PAGE else |codes|
  }

  /** The first n codes are at or before the cursor, the others after it. */
  predicate Splits(codes: seq<string>, n: nat, after: string) {
    n <= |codes| && forall i | 0 <= i < |codes| :: CompareStrings(codes[i], after) <= 0 <==> i < n
  }

  lemma {:induction false} PageFollows(codes: seq<string>, n: nat, after: string)
    requires Splits(codes, n, after)
    ensures PageAfter(codes, after) == codes[n..PageEnd(codes, n)]
  {
    if n > 0 {
      assert Splits(codes[1..], n - 1, after);
      PageFollows(codes[1..], n - 1, after);
    }
  }

  lemma SplitsAt(codes: seq<string>, n: nat, i: nat)
    requires AscendingCodes(codes) && 0 < n <= |codes| && i < |codes|
    ensures CompareStrings(codes[i], codes[n - 1]) <= 0 <==> i < n
  {
    if i < n - 1 {
      assert CompareStrings(codes[i], codes[n - 1]) < 0;
    } else if i >= n {
      assert CompareStrings(codes[n - 1], codes[i]) < 0;
      StringsOrdered(codes[i], codes[n - 1], "");
    }
  }

  lemma NextPageStarts(codes: seq<string>, n: nat)
    requires AscendingCodes(codes) && 0 < n <= |codes|
    ensures PageAfter(codes, codes[n - 1]) == codes[n..PageEnd(codes, n)]
  {
    forall i | 0 <= i < |codes| ensures CompareStrings(codes[i], codes[n - 1]) <= 0 <==> i < n { SplitsAt(codes, n, i); }
    PageFollows(codes, n, codes[n - 1]);
  }

  /** The codes read so far, and where the next page starts. */
  predicate Scanned(stored: seq<string>, read: seq<string>, after: string) {
    read <= stored && PageAfter(stored, after) == stored[|read|..PageEnd(stored, |read|)]
  }

  lemma ScanNext(stored: seq<string>, read: seq<string>, after: string)
    requires AscendingCodes(stored) && Scanned(stored, read, after)
    ensures var page := PageAfter(stored, after);
      if |page| < PAGE then read + page == stored else |read| < |stored| && Scanned(stored, read + page, page[|page| - 1])
  {
    var n := PageEnd(stored, |read|);
    assert read + PageAfter(stored, after) == stored[..n];
    if n > |read| { NextPageStarts(stored, n); }
  }

  lemma ScanStarts(codes: seq<string>)
    requires forall i | 0 <= i < |codes| :: codes[i] != ""
    ensures Scanned(codes, [], "")
  {
    PageFollows(codes, 0, "");
  }
}
