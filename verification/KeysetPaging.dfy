/** Keyset paging over the nodes that match a query, and the client loop that follows the cursors. */
module KeysetPaging {
  import opened Basics
  import opened RowOrder

  datatype Error = InvalidArgument | MissingCursor | NoNodes | CountMismatch
  datatype Result<+T> = Ok(value: T) | Err(error: Error)

  datatype Node = Node(code: string, sort: int, level: nat, parentCode: Option<string>)
  datatype Key = Key(sort: int, code: string)

  /** A cursor is bound to the query it was issued for. */
  datatype Cursor = Cursor(query: string, key: Key)

  datatype Page = Page(items: seq<Node>, hasMore: bool, nextCursor: Option<Cursor>)

  const MAX_PAGE := 200

  predicate Before(a: Node, b: Node) { a.sort < b.sort || (a.sort == b.sort && CompareStrings(a.code, b.code) < 0) }

  predicate IsAfter(n: Node, after: Option<Key>) {
    after.None? || after.value.sort < n.sort || (after.value.sort == n.sort && CompareStrings(after.value.code, n.code) < 0)
  }

  function KeyOf(n: Node): Key { Key(n.sort, n.code) }

  predicate CodesDistinct(rows: seq<Node>) { forall i, j | 0 <= i < j < |rows| :: rows[i].code != rows[j].code }

  predicate Ordered(rows: seq<Node>) { forall i, j | 0 <= i < j < |rows| :: Before(rows[i], rows[j]) }

  // ----- the query -----

  function InsertNode(n: Node, rows: seq<Node>): (r: seq<Node>)
    ensures multiset(r) == multiset(rows) + multiset{n}
  {
    if rows == [] || Before(n, rows[0]) then [n] + rows
    else
      assert rows == [rows[0]] + rows[1..];
      [rows[0]] + InsertNode(n, rows[1..])
  }

  /** ORDER BY sort, code. */
  function OrderNodes(rows: seq<Node>): (r: seq<Node>)
    ensures multiset(r) == multiset(rows)
  {
    if rows == [] then [] else
      assert rows == [rows[0]] + rows[1..];
      InsertNode(rows[0], OrderNodes(rows[1..]))
  }

  /** WHERE (sort, code) > (after.sort, after.code). */
  function NodesAfter(rows: seq<Node>, after: Option<Key>): seq<Node> {
    if rows == [] then [] else (if IsAfter(rows[0], after) then [rows[0]] else []) + NodesAfter(rows[1..], after)
  }

  /** LIMIT take. */
  function Taken(found: seq<Node>, take: nat): seq<Node> { if |found| <= take then found else found[..take] }

  function ListNodes(rows: seq<Node>, after: Option<Key>, take: nat): seq<Node> { Taken(OrderNodes(NodesAfter(rows, after)), take) }

  // ----- order -----

  lemma BeforeTotal(a: Node, b: Node, c: Node)
    ensures Before(a, b) && Before(b, c) ==> Before(a, c)
    ensures a.code != b.code ==> Before(a, b) || Before(b, a)
    ensures !(Before(a, b) && Before(b, a)) && !Before(a, a)
  {
    StringsOrdered(a.code, b.code, c.code);
    StringsOrdered(c.code, a.code, b.code);
  }

  lemma {:induction false} InsertOrdered(n: Node, rows: seq<Node>)
    requires Ordered(rows) && forall i | 0 <= i < |rows| :: rows[i].code != n.code
    ensures Ordered(InsertNode(n, rows))
  {
    if rows != [] {
      if Before(n, rows[0]) {
        forall i | 0 <= i < |rows| ensures Before(n, rows[i]) { BeforeTotal(n, rows[0], rows[i]); }
      } else {
        InsertOrdered(n, rows[1..]);
        var r := InsertNode(n, rows[1..]);
        BeforeTotal(rows[0], n, n);
        BeforeTotal(n, rows[0], n);
        forall i | 0 <= i < |r| ensures Before(rows[0], r[i]) {
          assert r[i] in multiset(r);
          assert r[i] == n || r[i] in rows[1..];
        }
      }
    }
  }

  lemma {:induction false} OrderNodesOrdered(rows: seq<Node>)
    requires CodesDistinct(rows)
    ensures Ordered(OrderNodes(rows))
    ensures |OrderNodes(rows)| == |rows| && forall i, j | 0 <= i < j < |rows| :: ListedBefore(OrderNodes(rows)[i], OrderNodes(rows)[j])
  {
    if rows != [] {
      OrderNodesOrdered(rows[1..]);
      var r := OrderNodes(rows[1..]);
      forall i | 0 <= i < |r| ensures r[i].code != rows[0].code {
        assert r[i] in multiset(r);
        var k :| 0 <= k < |rows| - 1 && rows[1..][k] == r[i];
        assert rows[k + 1] == r[i];
      }
      InsertOrdered(rows[0], r);
    }
    assert |multiset(OrderNodes(rows))| == |multiset(rows)|;
    forall i, j | 0 <= i < j < |rows| ensures ListedBefore(OrderNodes(rows)[i], OrderNodes(rows)[j]) {
      ListedBeforeIff(OrderNodes(rows)[i], OrderNodes(rows)[j], None);
    }
  }

  lemma AfterIsUpward(a: Node, b: Node, after: Option<Key>)
    requires IsAfter(a, after) && Before(a, b)
    ensures IsAfter(b, after)
  {
    if after.Some? { StringsOrdered(after.value.code, a.code, b.code); StringsOrdered(a.code, b.code, after.value.code); StringsOrdered(b.code, after.value.code, a.code); }
  }

  function Kept(n: Node, after: Option<Key>): seq<Node> { if IsAfter(n, after) then [n] else [] }

  lemma AfterHead(n: Node, rows: seq<Node>, after: Option<Key>)
    ensures NodesAfter([n] + rows, after) == Kept(n, after) + NodesAfter(rows, after)
  {
    assert ([n] + rows)[1..] == rows;
  }

  lemma InsertFirst(n: Node, rows: seq<Node>, after: Option<Key>)
    requires rows != [] && Before(n, rows[0])
    ensures NodesAfter(InsertNode(n, rows), after) == if IsAfter(n, after) then InsertNode(n, NodesAfter(rows, after)) else NodesAfter(rows, after)
  {
    AfterHead(n, rows, after);
    if IsAfter(n, after) { AfterIsUpward(n, rows[0], after); }
  }

  lemma InsertLater(n: Node, head: Node, tail: seq<Node>, after: Option<Key>)
    requires !Before(n, head)
    requires NodesAfter(InsertNode(n, tail), after) == if IsAfter(n, after) then InsertNode(n, NodesAfter(tail, after)) else NodesAfter(tail, after)
    ensures NodesAfter([head] + InsertNode(n, tail), after)
            == if IsAfter(n, after) then InsertNode(n, Kept(head, after) + NodesAfter(tail, after)) else Kept(head, after) + NodesAfter(tail, after)
  {
    AfterHead(head, InsertNode(n, tail), after);
    var rest := NodesAfter(tail, after);
    if IsAfter(head, after) { assert ([head] + rest)[1..] == rest; } else { assert [] + rest == rest; }
  }

  lemma {:induction false} AfterInsert(n: Node, rows: seq<Node>, after: Option<Key>)
    requires Ordered(rows)
    ensures NodesAfter(InsertNode(n, rows), after) == if IsAfter(n, after) then InsertNode(n, NodesAfter(rows, after)) else NodesAfter(rows, after)
  {
    if rows != [] {
      if Before(n, rows[0]) {
        InsertFirst(n, rows, after);
      } else {
        AfterInsert(n, rows[1..], after);
        InsertLater(n, rows[0], rows[1..], after);
      }
    }
  }

  lemma OrderHead(n: Node, rows: seq<Node>)
    ensures OrderNodes([n] + rows) == InsertNode(n, OrderNodes(rows))
  {
    assert ([n] + rows)[1..] == rows;
  }

  /** Filtering by the cursor and ordering commute. */
  lemma {:induction false} AfterCommutes(rows: seq<Node>, after: Option<Key>)
    requires CodesDistinct(rows)
    ensures OrderNodes(NodesAfter(rows, after)) == NodesAfter(OrderNodes(rows), after)
  {
    if rows != [] {
      AfterCommutes(rows[1..], after);
      OrderNodesOrdered(rows[1..]);
      AfterInsert(rows[0], OrderNodes(rows[1..]), after);
      OrderHead(rows[0], NodesAfter(rows[1..], after));
      if !IsAfter(rows[0], after) { assert [] + NodesAfter(rows[1..], after) == NodesAfter(rows[1..], after); }
    }
  }

  /** The cursor after the first n of the ordered nodes. */
  function CursorKey(all: seq<Node>, n: nat): Option<Key>
    requires n <= |all|
  {
    if n == 0 then None else Some(KeyOf(all[n - 1]))
  }

  lemma {:induction false} NothingDropped(rows: seq<Node>, after: Option<Key>)
    requires forall i | 0 <= i < |rows| :: IsAfter(rows[i], after)
    ensures NodesAfter(rows, after) == rows
  {
    if rows != [] { NothingDropped(rows[1..], after); }
  }

  lemma {:induction false} PrefixDropped(rows: seq<Node>, after: Option<Key>, n: nat)
    requires n <= |rows| && forall i | 0 <= i < |rows| :: IsAfter(rows[i], after) <==> i >= n
    ensures NodesAfter(rows, after) == rows[n..]
  {
    if n == 0 {
      NothingDropped(rows, after);
    } else {
      PrefixDropped(rows[1..], after, n - 1);
      assert rows[1..][n - 1..] == rows[n..];
    }
  }

  lemma CursorSplits(all: seq<Node>, n: nat, i: nat)
    requires Ordered(all) && n <= |all| && i < |all|
    ensures IsAfter(all[i], CursorKey(all, n)) <==> i >= n
  {
    if n > 0 {
      BeforeTotal(all[n - 1], all[i], all[i]);
      if i < n - 1 { assert Before(all[i], all[n - 1]); }
    }
  }

  /** At most `take` nodes from position n. */
  function Slice(all: seq<Node>, n: nat, take: nat): seq<Node>
    requires n <= |all|
  {
    if n + take < |all| then all[n..n + take] else all[n..]
  }

  /** From the n-th cursor on, the next page is the next slice of the whole ordered list. */
  lemma ListsNextSlice(rows: seq<Node>, n: nat, take: nat)
    requires CodesDistinct(rows) && n <= |OrderNodes(rows)|
    ensures var all := OrderNodes(rows);
            ListNodes(rows, CursorKey(all, n), take) == Slice(all, n, take)
  {
    ListedAfter(rows, OrderNodes(rows), n);
    SliceTaken(OrderNodes(rows), n, take);
  }

  lemma ListedAfter(rows: seq<Node>, all: seq<Node>, n: nat)
    requires CodesDistinct(rows) && all == OrderNodes(rows) && n <= |all|
    ensures OrderNodes(NodesAfter(rows, CursorKey(all, n))) == all[n..]
  {
    OrderNodesOrdered(rows);
    AfterCommutes(rows, CursorKey(all, n));
    SliceAfter(all, n);
  }

  lemma SliceTaken(all: seq<Node>, n: nat, take: nat)
    requires n <= |all|
    ensures Taken(all[n..], take) == Slice(all, n, take)
  {
    if n + take < |all| { assert all[n..][..take] == all[n..n + take]; }
  }

  lemma SliceAfter(all: seq<Node>, n: nat)
    requires Ordered(all) && n <= |all|
    ensures NodesAfter(all, CursorKey(all, n)) == all[n..]
  {
    forall i | 0 <= i < |all| ensures IsAfter(all[i], CursorKey(all, n)) <==> i >= n { CursorSplits(all, n, i); }
    PrefixDropped(all, CursorKey(all, n), n);
  }

  // ----- the page and the client -----

  function ServePage(rows: seq<Node>, query: string, limit: int, cursor: Option<Cursor>): Result<Page> {
    if !(1 <= limit <= MAX_PAGE) || (cursor.Some? && cursor.value.query != query) then Err(InvalidArgument)
    else
      var found := ListNodes(rows, if cursor.Some? then Some(cursor.value.key) else None, limit + 1);
      Ok(PageOf(found, limit, query))
  }

  /** One row more than the limit was asked for, to see whether there are more. */
  function PageOf(found: seq<Node>, limit: nat, query: string): Page
    requires limit >= 1
  {
    if |found| > limit then Page(found[..limit], true, Some(Cursor(query, KeyOf(found[limit - 1])))) else Page(found, false, None)
  }

  /** Where a page starts. */
  function Position(cursor: Option<Cursor>): Option<Key> { if cursor.Some? then Some(cursor.value.key) else None }

  /** By sort, and by code among equal sorts. */
  predicate ListedBefore(a: Node, b: Node) { a.sort < b.sort || (a.sort == b.sort && ComesBefore(a.code, b.code)) }

  /** Strictly after the position a cursor names. */
  predicate IsBeyond(n: Node, after: Option<Key>) {
    after.None? || after.value.sort < n.sort || (after.value.sort == n.sort && ComesBefore(after.value.code, n.code))
  }

  lemma ListedBeforeIff(a: Node, b: Node, after: Option<Key>)
    ensures Before(a, b) <==> ListedBefore(a, b)
    ensures IsAfter(a, after) <==> IsBeyond(a, after)
  {
    ComesBeforeIff(a.code, b.code);
    if after.Some? { ComesBeforeIff(after.value.code, a.code); }
  }

  /** A matching row beyond the position that is not on the page. */
  predicate IsLeft(n: Node, rows: seq<Node>, after: Option<Key>, items: seq<Node>) { n in rows && IsBeyond(n, after) && n !in items }

  /** The first rows beyond the position, in order: all that is left comes later, and it is said whether anything is. */
  ghost predicate NextPage(p: Page, rows: seq<Node>, query: string, limit: nat, after: Option<Key>) {
    && (forall i, j | 0 <= i < j < |p.items| :: ListedBefore(p.items[i], p.items[j])) && |p.items| <= limit
    && (forall i | 0 <= i < |p.items| :: p.items[i] in rows && IsBeyond(p.items[i], after))
    && (forall n, i | IsLeft(n, rows, after, p.items) && 0 <= i < |p.items| :: ListedBefore(p.items[i], n))
    && (p.hasMore <==> exists n :: IsLeft(n, rows, after, p.items))
    && (if p.hasMore then |p.items| == limit > 0 && p.nextCursor == Some(Cursor(query, KeyOf(p.items[limit - 1]))) else p.nextCursor == None)
  }

  lemma {:induction false} AfterMember(rows: seq<Node>, after: Option<Key>, n: Node)
    ensures n in NodesAfter(rows, after) <==> n in rows && IsAfter(n, after)
  {
    if rows != [] {
      AfterMember(rows[1..], after, n);
      assert n in rows <==> n == rows[0] || n in rows[1..];
    }
  }

  lemma {:induction false} AfterOrdered(rows: seq<Node>, after: Option<Key>)
    requires Ordered(rows)
    ensures Ordered(NodesAfter(rows, after))
  {
    if rows != [] {
      AfterOrdered(rows[1..], after);
      var tail := NodesAfter(rows[1..], after);
      forall i | 0 <= i < |tail| ensures Before(rows[0], tail[i]) {
        AfterMember(rows[1..], after, tail[i]);
        var k :| 0 <= k < |rows| - 1 && rows[1..][k] == tail[i];
        assert rows[k + 1] == tail[i];
      }
    }
  }

  lemma Beyond(rows: seq<Node>, after: Option<Key>, n: Node)
    ensures n in OrderNodes(NodesAfter(rows, after)) <==> n in rows && IsAfter(n, after)
  {
    AfterMember(rows, after, n);
    assert n in OrderNodes(NodesAfter(rows, after)) <==> n in multiset(OrderNodes(NodesAfter(rows, after)));
  }

  lemma FirstOfOrdered(found: seq<Node>, limit: nat, n: Node)
    requires Ordered(found) && limit < |found|
    ensures n in found && n !in found[..limit] <==> exists k :: limit <= k < |found| && found[k] == n
    ensures n in found && n !in found[..limit] ==> forall i | 0 <= i < limit :: Before(found[i], n)
  {
    if k :| limit <= k < |found| && found[k] == n {
      forall i | 0 <= i < limit ensures Before(found[i], n) && found[..limit][i] != n {
        BeforeTotal(found[i], n, n);
        assert Before(found[i], found[k]);
      }
    }
  }

  lemma PageIsNext(rows: seq<Node>, query: string, limit: nat, after: Option<Key>)
    requires CodesDistinct(rows) && limit >= 1
    ensures NextPage(PageOf(ListNodes(rows, after, limit + 1), limit, query), rows, query, limit, after)
  {
    var found := OrderNodes(NodesAfter(rows, after));
    AfterCommutes(rows, after);
    OrderNodesOrdered(rows);
    AfterOrdered(OrderNodes(rows), after);
    forall n ensures n in found <==> n in rows && IsAfter(n, after) { Beyond(rows, after, n); }
    PageOfFound(rows, found, query, limit, after);
    KeyedIsNext(PageOf(ListNodes(rows, after, limit + 1), limit, query), rows, query, limit, after);
  }

  predicate IsLeftAfter(n: Node, rows: seq<Node>, after: Option<Key>, items: seq<Node>) { n in rows && IsAfter(n, after) && n !in items }

  /** The same in the query's own comparisons. */
  ghost predicate PageByKey(p: Page, rows: seq<Node>, query: string, limit: nat, after: Option<Key>) {
    && Ordered(p.items) && |p.items| <= limit
    && (forall i | 0 <= i < |p.items| :: p.items[i] in rows && IsAfter(p.items[i], after))
    && (forall n, i | IsLeftAfter(n, rows, after, p.items) && 0 <= i < |p.items| :: Before(p.items[i], n))
    && (p.hasMore <==> exists n :: IsLeftAfter(n, rows, after, p.items))
    && (if p.hasMore then |p.items| == limit > 0 && p.nextCursor == Some(Cursor(query, KeyOf(p.items[limit - 1]))) else p.nextCursor == None)
  }

  lemma KeyedIsNext(p: Page, rows: seq<Node>, query: string, limit: nat, after: Option<Key>)
    requires PageByKey(p, rows, query, limit, after)
    ensures NextPage(p, rows, query, limit, after)
  {
    forall n ensures IsLeft(n, rows, after, p.items) <==> IsLeftAfter(n, rows, after, p.items) { ListedBeforeIff(n, n, after); }
    forall i, j | 0 <= i < j < |p.items| ensures ListedBefore(p.items[i], p.items[j]) { ListedBeforeIff(p.items[i], p.items[j], after); }
    forall i | 0 <= i < |p.items| ensures IsBeyond(p.items[i], after) { ListedBeforeIff(p.items[i], p.items[i], after); }
    forall n, i | IsLeft(n, rows, after, p.items) && 0 <= i < |p.items| ensures ListedBefore(p.items[i], n) { ListedBeforeIff(p.items[i], n, after); }
  }

  lemma PageOfFound(rows: seq<Node>, found: seq<Node>, query: string, limit: nat, after: Option<Key>)
    requires Ordered(found) && limit >= 1 && forall n :: n in found <==> n in rows && IsAfter(n, after)
    ensures PageByKey(PageOf(Taken(found, limit + 1), limit, query), rows, query, limit, after)
  {
    var p := PageOf(Taken(found, limit + 1), limit, query);
    if limit < |found| {
      assert p.items == found[..limit];
      forall n ensures IsLeftAfter(n, rows, after, p.items) <==> n in found && n !in found[..limit] {}
      forall n | IsLeftAfter(n, rows, after, p.items) ensures forall i | 0 <= i < limit :: Before(p.items[i], n) { FirstOfOrdered(found, limit, n); }
      FirstOfOrdered(found, limit, found[limit]);
      assert IsLeftAfter(found[limit], rows, after, p.items);
    } else {
      assert p.items == found;
    }
  }

  /** A legal request with no cursor or one of the same query gets the next page, and every other an error. */
  ghost predicate Serves(r: Result<Page>, rows: seq<Node>, query: string, limit: int, cursor: Option<Cursor>) {
    if 1 <= limit <= 200 && (cursor.Some? ==> cursor.value.query == query)
    then r.Ok? && (CodesDistinct(rows) ==> NextPage(r.value, rows, query, limit, Position(cursor)))
    else r == Err(InvalidArgument)
  }

  lemma ServedIsNext(rows: seq<Node>, query: string, limit: int, cursor: Option<Cursor>)
    ensures Serves(ServePage(rows, query, limit, cursor), rows, query, limit, cursor)
  {
    if limit >= 1 && CodesDistinct(rows) { PageIsNext(rows, query, limit, Position(cursor)); }
  }

  method GetPage(rows: seq<Node>, query: string, limit: int, cursor: Option<Cursor>) returns (r: Result<Page>)
    ensures r == ServePage(rows, query, limit, cursor)
    ensures Serves(r, rows, query, limit, cursor)
  {
    ServedIsNext(rows, query, limit, cursor);
    if !(1 <= limit <= MAX_PAGE) { return Err(InvalidArgument); }
    if cursor.Some? && cursor.value.query != query { return Err(InvalidArgument); }
    var after := if cursor.Some? then Some(cursor.value.key) else None;
    var found := ListNodes(rows, after, limit + 1);
    var hasMore := |found| > limit;
    var items := if |found| > limit then found[..limit] else found;
    r := Ok(Page(items, hasMore, if hasMore then Some(Cursor(query, KeyOf(items[|items| - 1]))) else None));
  }

  /** The cursor handed out after the first n nodes of the ordered list. */
  predicate CursorAt(all: seq<Node>, n: nat, query: string, cursor: Option<Cursor>)
    requires n <= |all|
  {
    cursor == if n == 0 then None else Some(Cursor(query, KeyOf(all[n - 1])))
  }

  /** The page that starts at position n of the ordered list. */
  function PageFrom(all: seq<Node>, n: nat, limit: nat, query: string): Page
    requires n <= |all| && limit >= 1
  {
    if n + limit < |all| then Page(all[n..n + limit], true, Some(Cursor(query, KeyOf(all[n + limit - 1]))))
    else Page(all[n..], false, None)
  }

  /** From the n-th position on, a page with any legal limit continues the ordered list exactly. */
  lemma PageContinues(rows: seq<Node>, query: string, limit: int, n: nat, cursor: Option<Cursor>)
    requires CodesDistinct(rows) && 1 <= limit <= MAX_PAGE && n <= |OrderNodes(rows)| && CursorAt(OrderNodes(rows), n, query, cursor)
    ensures ServePage(rows, query, limit, cursor) == Ok(PageFrom(OrderNodes(rows), n, limit, query))
  {
    var all := OrderNodes(rows);
    ServedAt(rows, query, limit, all, n, cursor);
    ListsNextSlice(rows, n, limit + 1);
    PageOfSlice(all, n, limit, query);
  }

  lemma ServedAt(rows: seq<Node>, query: string, limit: int, all: seq<Node>, n: nat, cursor: Option<Cursor>)
    requires 1 <= limit <= MAX_PAGE && n <= |all| && CursorAt(all, n, query, cursor)
    ensures ServePage(rows, query, limit, cursor) == Ok(PageOf(ListNodes(rows, CursorKey(all, n), limit + 1), limit, query))
  {
  }

  lemma PageOfSlice(all: seq<Node>, n: nat, limit: nat, query: string)
    requires n <= |all| && limit >= 1
    ensures PageOf(Slice(all, n, limit + 1), limit, query) == PageFrom(all, n, limit, query)
  {
    if n + limit + 1 < |all| {
      assert all[n..n + limit + 1][..limit] == all[n..n + limit];
    } else if n + limit < |all| {
      assert all[n..][..limit] == all[n..n + limit];
    }
  }

  /** Following the cursors with any page size yields the whole matching list, in order, and ends. */
  method Collect(rows: seq<Node>, query: string, pageSize: int) returns (r: Result<seq<Node>>)
    requires CodesDistinct(rows)
    ensures r == if 1 <= pageSize <= MAX_PAGE then Ok(OrderNodes(rows)) else Err(InvalidArgument)
  {
    ghost var all := OrderNodes(rows);
    var collected: seq<Node> := [];
    var cursor: Option<Cursor> := None;
    while true
      invariant Collected(all, collected, query, cursor)
      decreases |all| - |collected|
    {
      var page := GetPage(rows, query, pageSize, cursor);
      if page.Err? { return Err(page.error); }
      PageContinues(rows, query, pageSize, |collected|, cursor);
      PageAppended(all, collected, pageSize, query, cursor);
      collected := collected + page.value.items;
      if !page.value.hasMore { return Ok(collected); }
      if page.value.nextCursor.None? { return Err(MissingCursor); }
      cursor := page.value.nextCursor;
    }
  }

  predicate Collected(all: seq<Node>, collected: seq<Node>, query: string, cursor: Option<Cursor>) {
    |collected| <= |all| && collected == all[..|collected|] && CursorAt(all, |collected|, query, cursor)
  }

  lemma PageAppended(all: seq<Node>, collected: seq<Node>, limit: nat, query: string, cursor: Option<Cursor>)
    requires Collected(all, collected, query, cursor) && limit >= 1
    ensures var page := PageFrom(all, |collected|, limit, query);
            if page.hasMore then page.items != [] && page.nextCursor.Some? && Collected(all, collected + page.items, query, page.nextCursor)
            else collected + page.items == all
  {
  }
}
