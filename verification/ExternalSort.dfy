/** The bounded-memory sort: sorted runs on disk, 64-way merge passes, one final merge. */
module ExternalSort {
  import opened RowOrder

  const CHUNK_ROWS := 10_000
  const MERGE_FAN_IN := 64

  predicate Sorted(rows: seq<SourceRow>) { forall i, j | 0 <= i < j < |rows| :: Le(rows[i], rows[j]) }

  predicate AllSorted(files: seq<seq<SourceRow>>) { forall i | 0 <= i < |files| :: Sorted(files[i]) }

  /** Every row of every file, with multiplicity. */
  ghost function Content(files: seq<seq<SourceRow>>): multiset<SourceRow> {
    if files == [] then multiset{} else multiset(files[0]) + Content(files[1..])
  }

  // ----- the order the sort must produce -----

  function Insert(row: SourceRow, rows: seq<SourceRow>): (r: seq<SourceRow>)
    ensures multiset(r) == multiset(rows) + multiset{row}
  {
    if rows == [] then [row]
    else if Le(row, rows[0]) then [row] + rows
    else
      assert rows == [rows[0]] + rows[1..];
      [rows[0]] + Insert(row, rows[1..])
  }

  lemma {:induction false} InsertSorted(row: SourceRow, rows: seq<SourceRow>)
    requires Sorted(rows)
    ensures Sorted(Insert(row, rows))
  {
    if rows != [] {
      RowsOrdered(row, rows[0], rows[0]);
      if Le(row, rows[0]) {
        forall i | 0 <= i < |rows| ensures Le(row, rows[i]) { RowsOrdered(row, rows[0], rows[i]); }
      } else {
        InsertSorted(row, rows[1..]);
        var r := Insert(row, rows[1..]);
        forall i | 0 <= i < |r| ensures Le(rows[0], r[i]) { assert r[i] in multiset(r); assert r[i] == row || r[i] in rows[1..]; }
      }
    }
  }

  /** The sorted arrangement of a bag of rows; it is what any correct sort returns. */
  function SortRows(rows: seq<SourceRow>): (r: seq<SourceRow>)
    ensures multiset(r) == multiset(rows)
  {
    if rows == [] then [] else
      assert rows == [rows[0]] + rows[1..];
      Insert(rows[0], SortRows(rows[1..]))
  }

  lemma {:induction false} SortRowsSorted(rows: seq<SourceRow>)
    ensures Sorted(SortRows(rows))
  {
    if rows != [] {
      SortRowsSorted(rows[1..]);
      InsertSorted(rows[0], SortRows(rows[1..]));
    }
  }

  lemma SameHead(a: seq<SourceRow>, b: seq<SourceRow>)
    requires Sorted(a) && Sorted(b) && multiset(a) == multiset(b) && a != []
    ensures b != [] && a[0] == b[0]
  {
    assert a[0] in multiset(b);
    assert b[0] in multiset(a);
    RowsOrdered(a[0], b[0], b[0]);
  }

  lemma TailBag(a: seq<SourceRow>)
    requires a != []
    ensures multiset(a[1..]) == multiset(a) - multiset{a[0]}
  {
    assert a == [a[0]] + a[1..];
  }

  /** A bag of rows has exactly one sorted arrangement. */
  lemma {:induction false} SortedUnique(a: seq<SourceRow>, b: seq<SourceRow>)
    requires Sorted(a) && Sorted(b) && multiset(a) == multiset(b)
    ensures a == b
  {
    if a == [] {
      assert |multiset(b)| == 0;
    } else {
      SameHead(a, b);
      TailBag(a);
      TailBag(b);
      SortedUnique(a[1..], b[1..]);
      assert a == [a[0]] + a[1..] && b == [b[0]] + b[1..];
    }
  }

  // ----- bags of files -----

  lemma ContentAppend(files: seq<seq<SourceRow>>, file: seq<SourceRow>)
    ensures Content(files + [file]) == Content(files) + multiset(file)
  {
    if files != [] {
      ContentAppend(files[1..], file);
      assert (files + [file])[1..] == files[1..] + [file];
    }
  }

  lemma HeadFirst(a: seq<seq<SourceRow>>, b: seq<seq<SourceRow>>)
    requires a != []
    ensures Content(a + b) == multiset(a[0]) + Content(a[1..] + b)
  {
    assert (a + b)[1..] == a[1..] + b;
  }

  lemma {:induction false} ContentConcat(a: seq<seq<SourceRow>>, b: seq<seq<SourceRow>>)
    ensures Content(a + b) == Content(a) + Content(b)
  {
    if a == [] {
      assert a + b == b;
    } else {
      HeadFirst(a, b);
      ContentConcat(a[1..], b);
    }
  }

  /** Taking the head of file i takes one row out of the bag. */
  lemma ContentAdvance(files: seq<seq<SourceRow>>, i: nat)
    requires i < |files| && files[i] != []
    ensures Content(files) == Content(files[i := files[i][1..]]) + multiset{files[i][0]}
  {
    if i == 0 {
      assert files[0] == [files[0][0]] + files[0][1..];
      assert files[0 := files[0][1..]][1..] == files[1..];
    } else {
      ContentAdvance(files[1..], i - 1);
      assert files[i := files[i][1..]][1..] == files[1..][i - 1 := files[i][1..]];
    }
  }

  lemma ContentIn(files: seq<seq<SourceRow>>, row: SourceRow)
    ensures row in Content(files) <==> exists i :: 0 <= i < |files| && row in files[i]
  {
    if files != [] {
      ContentIn(files[1..], row);
      forall i | 0 <= i < |files| && row in files[i] ensures row in Content(files) {
        if i > 0 { assert row in files[1..][i - 1]; }
      }
      if row in Content(files) && row !in files[0] {
        var i :| 0 <= i < |files[1..]| && row in files[1..][i];
        assert row in files[i + 1];
      }
    }
  }

  lemma ContentEmpty(files: seq<seq<SourceRow>>)
    requires forall i | 0 <= i < |files| :: files[i] == []
    ensures Content(files) == multiset{}
  {
    if files != [] { ContentEmpty(files[1..]); }
  }

  lemma AppendSorted(out: seq<SourceRow>, row: SourceRow)
    requires Sorted(out) && forall i | 0 <= i < |out| :: Le(out[i], row)
    ensures Sorted(out + [row])
  {
  }

  // ----- the algorithm -----

  /** The head of reader `selected` is not above the head of any of the first n readers. */
  predicate Least(rest: seq<seq<SourceRow>>, selected: nat, n: nat)
    requires selected < |rest| && n <= |rest|
  {
    rest[selected] != [] && forall i | 0 <= i < n && rest[i] != [] :: Le(rest[selected][0], rest[i][0])
  }

  /** The smallest head among the readers that still have one, or -1 when all are done. */
  method Smallest(rest: seq<seq<SourceRow>>) returns (selected: int)
    ensures -1 <= selected < |rest|
    ensures selected < 0 <==> forall i | 0 <= i < |rest| :: rest[i] == []
    ensures selected >= 0 ==> Least(rest, selected, |rest|)
  {
    selected := -1;
    for index := 0 to |rest|
      invariant -1 <= selected < index
      invariant selected < 0 <==> forall i | 0 <= i < index :: rest[i] == []
      invariant selected >= 0 ==> Least(rest, selected, index)
    {
      if rest[index] != [] && (selected < 0 || Compare(rest[index][0], rest[selected][0]) < 0) {
        forall i | 0 <= i <= index && rest[i] != [] ensures Le(rest[index][0], rest[i][0]) {
          if selected >= 0 {
            RowsOrdered(rest[index][0], rest[selected][0], rest[i][0]);
          }
          RowsOrdered(rest[index][0], rest[index][0], rest[index][0]);
        }
        selected := index;
      } else if rest[index] != [] {
        RowsOrdered(rest[index][0], rest[selected][0], rest[index][0]);
      }
    }
  }

  /** What is out is sorted and below everything still to come, and no row is lost or added. */
  ghost predicate Merging(files: seq<seq<SourceRow>>, rest: seq<seq<SourceRow>>, out: seq<SourceRow>) {
    && AllSorted(rest) && Sorted(out) && multiset(out) + Content(rest) == Content(files)
    && forall i, r | 0 <= i < |out| && r in Content(rest) :: Le(out[i], r)
  }

  lemma MergeStep(files: seq<seq<SourceRow>>, rest: seq<seq<SourceRow>>, out: seq<SourceRow>, selected: nat)
    requires Merging(files, rest, out) && selected < |rest| && Least(rest, selected, |rest|)
    ensures Merging(files, rest[selected := rest[selected][1..]], out + [rest[selected][0]])
    ensures |Content(rest)| == |Content(rest[selected := rest[selected][1..]])| + 1
  {
    var row, after := rest[selected][0], rest[selected := rest[selected][1..]];
    ContentAdvance(rest, selected);
    HeadIsLeast(rest, selected, after);
    assert row in Content(rest);
    AppendSorted(out, row);
    BagMoves(out, row, Content(after), Content(rest));
  }

  lemma BagMoves(out: seq<SourceRow>, row: SourceRow, after: multiset<SourceRow>, before: multiset<SourceRow>)
    requires before == after + multiset{row}
    ensures multiset(out + [row]) + after == multiset(out) + before && |before| == |after| + 1
  {
  }

  method Merge(files: seq<seq<SourceRow>>) returns (out: seq<SourceRow>)
    requires AllSorted(files)
    ensures Sorted(out) && multiset(out) == Content(files)
  {
    var rest := files;
    out := [];
    while true
      invariant Merging(files, rest, out)
      decreases |Content(rest)|
    {
      var selected := Smallest(rest);
      if selected < 0 {
        ContentEmpty(rest);
        break;
      }
      var row := rest[selected][0];
      MergeStep(files, rest, out, selected);
      rest := rest[selected := rest[selected][1..]];
      out := out + [row];
    }
  }

  lemma HeadIsLeast(before: seq<seq<SourceRow>>, selected: nat, after: seq<seq<SourceRow>>)
    requires AllSorted(before) && selected < |before| && Least(before, selected, |before|)
    requires after == before[selected := before[selected][1..]]
    ensures forall r | r in Content(after) :: Le(before[selected][0], r) && r in Content(before)
  {
    ContentAdvance(before, selected);
    forall r | r in Content(after) ensures Le(before[selected][0], r) {
      ContentIn(after, r);
      var i :| 0 <= i < |after| && r in after[i];
      assert r in before[i];
      RowsOrdered(before[selected][0], before[i][0], r);
      RowsOrdered(r, r, r);
    }
  }

  lemma BatchMerged(files: seq<seq<SourceRow>>, index: nat, end: nat, next: seq<seq<SourceRow>>, merged: seq<SourceRow>)
    requires index <= end <= |files| && Content(next) == Content(files[..index]) && multiset(merged) == Content(files[index..end])
    ensures Content(next + [merged]) == Content(files[..end])
  {
    ContentAppend(next, merged);
    ContentConcat(files[..index], files[index..end]);
    assert files[..end] == files[..index] + files[index..end];
  }

  /** One pass: every 64 files become one. */
  method MergePass(files: seq<seq<SourceRow>>) returns (next: seq<seq<SourceRow>>)
    requires AllSorted(files) && |files| > MERGE_FAN_IN
    ensures AllSorted(next) && Content(next) == Content(files) && |next| < |files|
  {
    next := [];
    var index := 0;
    while index < |files|
      invariant 0 <= index <= |files|
      invariant AllSorted(next) && Content(next) == Content(files[..index])
      invariant index == |next| * MERGE_FAN_IN || index == |files| <= |next| * MERGE_FAN_IN < |files| + MERGE_FAN_IN
    {
      var end := if index + MERGE_FAN_IN < |files| then index + MERGE_FAN_IN else |files|;
      var merged := Merge(files[index..end]);
      BatchMerged(files, index, end, next, merged);
      next := next + [merged];
      index := end;
    }
    assert files[..index] == files;
  }

  lemma BagGrows(rows: seq<SourceRow>, i: nat, files: seq<seq<SourceRow>>, chunk: seq<SourceRow>)
    requires i < |rows| && Content(files) + multiset(chunk) == multiset(rows[..i])
    ensures Content(files) + multiset(chunk + [rows[i]]) == multiset(rows[..i + 1])
  {
    assert rows[..i + 1] == rows[..i] + [rows[i]];
  }

  /** Sorted runs of at most 10000 rows. */
  method Runs(rows: seq<SourceRow>) returns (files: seq<seq<SourceRow>>)
    ensures AllSorted(files) && Content(files) == multiset(rows)
  {
    files := [];
    var chunk: seq<SourceRow> := [];
    for i := 0 to |rows|
      invariant AllSorted(files) && |chunk| < CHUNK_ROWS
      invariant Content(files) + multiset(chunk) == multiset(rows[..i])
    {
      BagGrows(rows, i, files, chunk);
      chunk := chunk + [rows[i]];
      if |chunk| == CHUNK_ROWS {
        files := Flush(files, chunk);
        chunk := [];
      }
    }
    assert rows[..|rows|] == rows;
    if |chunk| > 0 { files := Flush(files, chunk); } else { assert multiset(chunk) == multiset{}; }
  }

  method Flush(files: seq<seq<SourceRow>>, chunk: seq<SourceRow>) returns (files': seq<seq<SourceRow>>)
    requires AllSorted(files)
    ensures AllSorted(files') && Content(files') == Content(files) + multiset(chunk)
  {
    SortRowsSorted(chunk);
    ContentAppend(files, SortRows(chunk));
    files' := files + [SortRows(chunk)];
  }

  method ExternalSort(rows: seq<SourceRow>) returns (out: seq<SourceRow>)
    ensures out == SortRows(rows)
  {
    var files := Runs(rows);
    while |files| > MERGE_FAN_IN
      invariant AllSorted(files) && Content(files) == multiset(rows)
    {
      files := MergePass(files);
    }
    out := Merge(files);
    SortRowsSorted(rows);
    SortedUnique(out, SortRows(rows));
  }

  /** The order in which the CSV lists its rows is not observable. */
  lemma SortIgnoresOrder(a: seq<SourceRow>, b: seq<SourceRow>)
    requires multiset(a) == multiset(b)
    ensures SortRows(a) == SortRows(b)
  {
    SortRowsSorted(a);
    SortRowsSorted(b);
    SortedUnique(SortRows(a), SortRows(b));
  }
}
