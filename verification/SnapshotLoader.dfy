/** Loading a region snapshot province by province, and the row counts that catch what it would miss. */
module SnapshotLoader {
  import opened Basics
  import opened KeysetPaging

  function AtLevel(rows: seq<Node>, level: nat): seq<Node> {
    if rows == [] then [] else (if rows[0].level == level then [rows[0]] else []) + AtLevel(rows[1..], level)
  }

  predicate ChildOf(n: Node, p: Node) { n.parentCode == Some(p.code) && p.level + 1 == n.level }

  /** Reached from the ancestor by parent links that go down one level at a time. */
  predicate Below(table: seq<Node>, ancestor: string, n: Node)
    decreases n.level
  {
    exists i :: 0 <= i < |table| && ChildOf(n, table[i]) && (table[i].code == ancestor || Below(table, ancestor, table[i]))
  }

  /** A way down: every node the child of the one before, one level deeper. */
  predicate Leads(table: seq<Node>, way: seq<Node>) {
    && (forall k | 0 <= k < |way| - 1 :: way[k] in table)
    && forall k | 0 < k < |way| :: way[k].parentCode == Some(way[k - 1].code) && way[k].level == way[k - 1].level + 1
  }

  predicate LeadsFrom(table: seq<Node>, ancestor: string, n: Node, way: seq<Node>) {
    |way| > 1 && way[0].code == ancestor && way[|way| - 1] == n && Leads(table, way)
  }

  lemma {:induction false} BelowHasWay(table: seq<Node>, ancestor: string, n: Node) returns (way: seq<Node>)
    requires Below(table, ancestor, n)
    ensures LeadsFrom(table, ancestor, n, way)
    decreases n.level
  {
    var i :| 0 <= i < |table| && ChildOf(n, table[i]) && (table[i].code == ancestor || Below(table, ancestor, table[i]));
    if table[i].code == ancestor {
      way := [table[i], n];
    } else {
      var above := BelowHasWay(table, ancestor, table[i]);
      way := above + [n];
    }
  }

  lemma {:induction false} WayIsBelow(table: seq<Node>, ancestor: string, n: Node, way: seq<Node>)
    requires LeadsFrom(table, ancestor, n, way)
    ensures Below(table, ancestor, n)
    decreases |way|
  {
    var last := |way| - 2;
    assert way[last] in table && ChildOf(n, way[last]);
    var i :| 0 <= i < |table| && table[i] == way[last];
    if last > 0 { WayIsBelow(table, ancestor, table[i], way[..|way| - 1]); }
  }

  /** A node is below an ancestor exactly when a way through the table leads down to it, one level at a time. */
  lemma BelowIff(table: seq<Node>, ancestor: string, n: Node)
    ensures Below(table, ancestor, n) <==> exists way :: LeadsFrom(table, ancestor, n, way)
  {
    if Below(table, ancestor, n) { var way := BelowHasWay(table, ancestor, n); }
    if way :| LeadsFrom(table, ancestor, n, way) { WayIsBelow(table, ancestor, n, way); }
  }

  /** The subtree query: one level of the nodes below an ancestor. */
  function Subtree(table: seq<Node>, rows: seq<Node>, ancestor: string, level: nat): seq<Node> {
    if rows == [] then []
    else (if rows[0].level == level && Below(table, ancestor, rows[0]) then [rows[0]] else []) + Subtree(table, rows[1..], ancestor, level)
  }

  lemma {:induction false} AtLevelMembers(rows: seq<Node>, level: nat)
    ensures forall n :: n in AtLevel(rows, level) <==> n in rows && n.level == level
    ensures CodesDistinct(rows) ==> CodesDistinct(AtLevel(rows, level))
  {
    if rows != [] {
      AtLevelMembers(rows[1..], level);
      if CodesDistinct(rows) { HeadDistinct(rows, AtLevel(rows[1..], level)); }
    }
  }

  lemma {:induction false} SubtreeMembers(table: seq<Node>, rows: seq<Node>, ancestor: string, level: nat)
    ensures forall n :: n in Subtree(table, rows, ancestor, level) <==> n in rows && n.level == level && Below(table, ancestor, n)
    ensures CodesDistinct(rows) ==> CodesDistinct(Subtree(table, rows, ancestor, level))
  {
    if rows != [] {
      SubtreeMembers(table, rows[1..], ancestor, level);
      if CodesDistinct(rows) { HeadDistinct(rows, Subtree(table, rows[1..], ancestor, level)); }
    }
  }

  lemma HeadDistinct(rows: seq<Node>, part: seq<Node>)
    requires rows != [] && CodesDistinct(rows) && (CodesDistinct(rows[1..]) ==> CodesDistinct(part)) && forall n | n in part :: n in rows[1..]
    ensures CodesDistinct([rows[0]] + part) && CodesDistinct(part)
  {
    forall i | 0 <= i < |part| ensures part[i].code != rows[0].code {
      assert part[i] in rows[1..];
      var k :| 0 <= k < |rows| - 1 && rows[1..][k] == part[i];
      assert rows[k + 1] == part[i];
    }
  }

  /** Rows not seen before join the snapshot. */
  method Add(nodes: seq<Node>, rows: seq<Node>) returns (r: seq<Node>)
    requires CodesDistinct(nodes)
    ensures CodesDistinct(r) && nodes <= r
    ensures forall n | n in r :: n in nodes || n in rows
    ensures forall n | n in rows :: exists k :: 0 <= k < |r| && r[k].code == n.code
  {
    r := nodes;
    for i := 0 to |rows|
      invariant CodesDistinct(r) && nodes <= r
      invariant forall n | n in r :: n in nodes || n in rows
      invariant forall j | 0 <= j < i :: HasCode(r, rows[j].code)
    {
      ghost var before := r;
      if !HasCode(r, rows[i].code) {
        r := r + [rows[i]];
        assert r[|before|].code == rows[i].code;
      }
      forall j | 0 <= j <= i ensures HasCode(r, rows[j].code) {
        if j < i {
          var k :| 0 <= k < |before| && before[k].code == rows[j].code;
          assert r[k].code == rows[j].code;
        }
      }
    }
    forall n | n in rows ensures exists k :: 0 <= k < |r| && r[k].code == n.code {
      var j :| 0 <= j < |rows| && rows[j] == n;
      assert HasCode(r, rows[j].code);
    }
  }

  predicate HasCode(rows: seq<Node>, code: string) { exists k :: 0 <= k < |rows| && rows[k].code == code }

  // ----- counting decides completeness -----

  function LevelSet(rows: seq<Node>, level: nat): set<Node> { set n | n in rows && n.level == level }

  lemma {:induction false} LevelSize(rows: seq<Node>, level: nat)
    requires CodesDistinct(rows)
    ensures |LevelSet(rows, level)| == |AtLevel(rows, level)|
  {
    if rows != [] {
      LevelSize(rows[1..], level);
      LevelSetStep(rows, level);
    }
  }

  lemma LevelSetStep(rows: seq<Node>, level: nat)
    requires rows != [] && CodesDistinct(rows)
    ensures CodesDistinct(rows[1..]) && rows[0] !in LevelSet(rows[1..], level)
    ensures LevelSet(rows, level) == LevelSet(rows[1..], level) + if rows[0].level == level then {rows[0]} else {}
  {
    forall k | 0 <= k < |rows[1..]| ensures rows[1..][k].code != rows[0].code { assert rows[1..][k] == rows[k + 1]; }
    assert rows == [rows[0]] + rows[1..];
  }

  lemma EqualCountsMeanAll(nodes: seq<Node>, table: seq<Node>, level: nat)
    requires CodesDistinct(nodes) && CodesDistinct(table) && forall n | n in nodes :: n in table
    ensures |AtLevel(nodes, level)| == |AtLevel(table, level)| <==> forall n | n in table && n.level == level :: n in nodes
  {
    LevelSize(nodes, level);
    LevelSize(table, level);
    var a, b := LevelSet(nodes, level), LevelSet(table, level);
    assert a <= b && a + (b - a) == b && |b| == |a| + |b - a|;
    if forall n | n in table && n.level == level :: n in nodes { assert a == b; }
    if |a| == |b| {
      assert b - a == {};
      forall n | n in table && n.level == level ensures n in nodes { assert n in b && n in a; }
    }
  }

  // ----- the loader -----

  /** Every row of a level below the provinces hangs under one of them by consecutive levels. */
  predicate NoSkippedLevels(table: seq<Node>, level: nat) {
    level != 1 ==> forall n | n in table && n.level == level :: exists p :: p in table && p.level == 1 && Below(table, p.code, n)
  }

  predicate InTable(nodes: seq<Node>, table: seq<Node>) { CodesDistinct(nodes) && forall n | n in nodes :: n in table }

  method CollectProvince(table: seq<Node>, nodes: seq<Node>, province: string, level: nat, pageSize: int) returns (r: seq<Node>)
    requires CodesDistinct(table) && InTable(nodes, table) && 1 <= pageSize <= MAX_PAGE
    ensures InTable(r, table) && nodes <= r
    ensures forall n | n in r && n !in nodes :: n.level == level && Below(table, province, n)
    ensures forall n | n in table && n.level == level && Below(table, province, n) :: n in r
  {
    var rows := Subtree(table, table, province, level);
    SubtreeMembers(table, table, province, level);
    var found := Collect(rows, province, pageSize);
    r := Add(nodes, found.value);
    FoundAll(table, nodes, rows, found.value, r);
  }

  predicate FromProvinces(table: seq<Node>, provinces: seq<Node>, n: Node, k: nat)
    requires k <= |provinces|
  {
    exists j :: 0 <= j < k && Below(table, provinces[j].code, n)
  }

  /** After the first k provinces: exactly their rows of the level were added. */
  predicate LevelCollected(table: seq<Node>, provinces: seq<Node>, nodes: seq<Node>, r: seq<Node>, level: nat, k: nat)
    requires k <= |provinces|
  {
    && InTable(r, table) && nodes <= r
    && (forall n | n in r && n !in nodes :: n.level == level && FromProvinces(table, provinces, n, k))
    && forall n | n in table && n.level == level && FromProvinces(table, provinces, n, k) :: n in r
  }

  method CollectLevel(table: seq<Node>, provinces: seq<Node>, nodes: seq<Node>, level: nat, pageSize: int) returns (r: seq<Node>)
    requires CodesDistinct(table) && InTable(nodes, table) && 1 <= pageSize <= MAX_PAGE
    ensures LevelCollected(table, provinces, nodes, r, level, |provinces|)
  {
    r := nodes;
    for i := 0 to |provinces|
      invariant LevelCollected(table, provinces, nodes, r, level, i)
    {
      var more := CollectProvince(table, r, provinces[i].code, level, pageSize);
      r := more;
    }
  }

  /** What was added are rows of the table, and by their codes all of them. */
  lemma FoundAll(table: seq<Node>, before: seq<Node>, rows: seq<Node>, found: seq<Node>, after: seq<Node>)
    requires CodesDistinct(table) && multiset(found) == multiset(rows) && (forall n | n in rows :: n in table) && forall n | n in before :: n in table
    requires (forall n | n in after :: n in before || n in found) && forall n | n in found :: exists k :: 0 <= k < |after| && after[k].code == n.code
    ensures (forall n | n in after :: n in table && (n in before || n in rows)) && forall n | n in rows :: n in after
  {
    forall n ensures n in found <==> n in rows { assert n in multiset(found) <==> n in multiset(rows); }
    forall n | n in rows ensures n in after {
      var k :| 0 <= k < |after| && after[k].code == n.code;
      assert after[k] in after;
    }
  }

  /** The provinces and the levels asked for besides. */
  predicate Wanted(levels: seq<nat>, level: nat) { level == 1 || level in levels }

  /** Exactly the wanted rows that can be reached. */
  predicate Loaded(table: seq<Node>, provinces: seq<Node>, levels: seq<nat>, k: nat, nodes: seq<Node>)
    requires k <= |levels|
  {
    && InTable(nodes, table)
    && (forall n | n in nodes :: n.level == 1 || (n.level in levels[..k] && FromProvinces(table, provinces, n, |provinces|)))
    && (forall n | n in table && n.level == 1 :: n in nodes)
    && forall n | n in table && n.level in levels[..k] && FromProvinces(table, provinces, n, |provinces|) :: n in nodes
  }

  predicate CountAt(nodes: seq<Node>, counts: map<nat, nat>, level: nat) { level in counts && counts[level] == |AtLevel(nodes, level)| }

  predicate CountsAgree(nodes: seq<Node>, counts: map<nat, nat>, levels: seq<nat>) {
    CountAt(nodes, counts, 1) && forall level | level in levels :: CountAt(nodes, counts, level)
  }

  method CheckCounts(nodes: seq<Node>, counts: map<nat, nat>, levels: seq<nat>) returns (ok: bool)
    ensures ok <==> CountsAgree(nodes, counts, levels)
  {
    var wanted := [1] + levels;
    for i := 0 to |wanted|
      invariant forall j | 0 <= j < i :: CountAt(nodes, counts, wanted[j])
    {
      if wanted[i] !in counts || |AtLevel(nodes, wanted[i])| != counts[wanted[i]] {
        assert wanted[i] == 1 || wanted[i] in levels;
        return false;
      }
    }
    assert wanted[0] == 1;
    forall level | level in levels ensures CountAt(nodes, counts, level) {
      assert level in wanted;
    }
    ok := true;
  }

  method LoadProvinces(table: seq<Node>, levels: seq<nat>, pageSize: int) returns (provinces: seq<Node>, nodes: seq<Node>)
    requires CodesDistinct(table) && 1 <= pageSize <= MAX_PAGE
    ensures (forall p :: p in provinces <==> p in table && p.level == 1) && Loaded(table, provinces, levels, 0, nodes)
  {
    var top := AtLevel(table, 1);
    AtLevelMembers(table, 1);
    var found := Collect(top, "level 1", pageSize);
    provinces := found.value;
    nodes := Add([], provinces);
    FoundAll(table, [], top, provinces, nodes);
    forall p ensures p in provinces <==> p in top { assert p in multiset(provinces) <==> p in multiset(top); }
  }

  method LoadLevels(table: seq<Node>, provinces: seq<Node>, levels: seq<nat>, top: seq<Node>, pageSize: int) returns (nodes: seq<Node>)
    requires CodesDistinct(table) && 1 <= pageSize <= MAX_PAGE && Loaded(table, provinces, levels, 0, top)
    ensures Loaded(table, provinces, levels, |levels|, nodes)
  {
    nodes := top;
    for k := 0 to |levels|
      invariant Loaded(table, provinces, levels, k, nodes)
    {
      var more := CollectLevel(table, provinces, nodes, levels[k], pageSize);
      nodes := more;
    }
  }

  predicate HasProvince(table: seq<Node>) { exists p :: p in table && p.level == 1 }

  /** Given counts that are true of the dataset, loading succeeds exactly when there is a province and no
      wanted level is skipped, and then the snapshot is exactly the wanted rows; a skipped level shows as a
      count that does not match. */
  method LoadSnapshot(table: seq<Node>, counts: map<nat, nat>, levels: seq<nat>, pageSize: int) returns (r: Result<seq<Node>>)
    requires CodesDistinct(table)
    ensures r == Err(InvalidArgument) <==> !(1 <= pageSize <= MAX_PAGE)
    ensures r.Ok? ==> r.value != [] && CountsAgree(r.value, counts, levels)
    ensures r.Ok? && CountsAgree(table, counts, levels) ==> InTable(r.value, table) && forall n :: n in r.value <==> n in table && Wanted(levels, n.level)
    ensures CountsAgree(table, counts, levels) && 1 <= pageSize <= MAX_PAGE ==>
              (r.Ok? <==> HasProvince(table) && forall level | level in levels :: NoSkippedLevels(table, level))
    ensures CountsAgree(table, counts, levels) && 1 <= pageSize <= MAX_PAGE ==>
              (r == Err(CountMismatch) <==> HasProvince(table) && exists level | level in levels :: !NoSkippedLevels(table, level))
    ensures 1 <= pageSize <= MAX_PAGE ==> (r == Err(NoNodes) <==> !HasProvince(table))
  {
    if !(1 <= pageSize <= MAX_PAGE) { return Err(InvalidArgument); }
    var provinces, top := LoadProvinces(table, levels, pageSize);
    var nodes := LoadLevels(table, provinces, levels, top, pageSize);
    EmptyIff(table, provinces, levels, nodes);
    if CountsAgree(table, counts, levels) { CountsDecide(table, provinces, counts, levels, nodes); }
    var agree := CheckCounts(nodes, counts, levels);
    r := if nodes == [] then Err(NoNodes) else if agree then Ok(nodes) else Err(CountMismatch);
  }

  /** With true counts: they agree exactly when nothing wanted was missed, that is when no level is skipped. */
  lemma CountsDecide(table: seq<Node>, provinces: seq<Node>, counts: map<nat, nat>, levels: seq<nat>, nodes: seq<Node>)
    requires CodesDistinct(table) && CountsAgree(table, counts, levels)
    requires Loaded(table, provinces, levels, |levels|, nodes) && forall p :: p in provinces <==> p in table && p.level == 1
    ensures CountsAgree(nodes, counts, levels) <==> forall level | level in levels :: NoSkippedLevels(table, level)
    ensures InTable(nodes, table) && (CountsAgree(nodes, counts, levels) ==> forall n :: n in nodes <==> n in table && Wanted(levels, n.level))
  {
    assert levels[..|levels|] == levels;
    EqualCountsMeanAll(nodes, table, 1);
    forall level | level in levels ensures |AtLevel(nodes, level)| == |AtLevel(table, level)| <==> NoSkippedLevels(table, level) {
      LevelComplete(table, provinces, levels, nodes, level);
    }
    if CountsAgree(nodes, counts, levels) {
      forall n | n in table && Wanted(levels, n.level) ensures n in nodes { EqualCountsMeanAll(nodes, table, n.level); }
    }
  }

  /** Without a province nothing at all is loaded. */
  lemma EmptyIff(table: seq<Node>, provinces: seq<Node>, levels: seq<nat>, nodes: seq<Node>)
    requires Loaded(table, provinces, levels, |levels|, nodes) && forall p :: p in provinces <==> p in table && p.level == 1
    ensures nodes == [] <==> !HasProvince(table)
  {
    if nodes != [] && nodes[0].level != 1 {
      assert nodes[0] in nodes;
      var j :| 0 <= j < |provinces| && Below(table, provinces[j].code, nodes[0]);
      assert provinces[j] in provinces;
    }
  }

  lemma LevelComplete(table: seq<Node>, provinces: seq<Node>, levels: seq<nat>, nodes: seq<Node>, level: nat)
    requires CodesDistinct(table) && level in levels
    requires Loaded(table, provinces, levels, |levels|, nodes) && forall p :: p in provinces <==> p in table && p.level == 1
    ensures |AtLevel(nodes, level)| == |AtLevel(table, level)| <==> NoSkippedLevels(table, level)
  {
    assert levels[..|levels|] == levels;
    EqualCountsMeanAll(nodes, table, level);
    forall n | n in table && n.level == level && level != 1
      ensures n in nodes <==> exists p :: p in table && p.level == 1 && Below(table, p.code, n)
    {
      if n in nodes {
        var j :| 0 <= j < |provinces| && Below(table, provinces[j].code, n);
        assert provinces[j] in provinces;
      }
      if p :| p in table && p.level == 1 && Below(table, p.code, n) {
        var j :| 0 <= j < |provinces| && provinces[j] == p;
        assert FromProvinces(table, provinces, n, |provinces|);
      }
    }
  }

  // ----- a skipped level -----

  /** A province, and a row two levels further down that names it as its parent. */
  const GAP := [Node("11", 0, 1, None), Node("110101", 1, 3, Some("11"))]
  const GAP_COUNTS: map<nat, nat> := map[1 := 1, 3 := 1]

  lemma GapSkipsALevel()
    ensures CodesDistinct(GAP) && CountsAgree(GAP, GAP_COUNTS, [3]) && HasProvince(GAP) && !NoSkippedLevels(GAP, 3)
  {
    assert "11"[..] == "11" && |"110101"| == 6;
    assert GAP[1..] == [GAP[1]] && [GAP[1]][1..] == [];
    assert AtLevel([GAP[1]], 1) == [] && AtLevel(GAP, 1) == [GAP[0]] && AtLevel(GAP, 3) == [GAP[1]];
    assert GAP[0] in GAP && GAP[1] in GAP;
    assert forall i | 0 <= i < |GAP| :: !ChildOf(GAP[1], GAP[i]);
  }

  /** The counts are true of this table, and with any legal page size loading it is refused. */
  method LoadSkippedLevel(pageSize: int) returns (r: Result<seq<Node>>)
    requires 1 <= pageSize <= MAX_PAGE
    ensures CountsAgree(GAP, GAP_COUNTS, [3]) && r == Err(CountMismatch)
  {
    GapSkipsALevel();
    r := LoadSnapshot(GAP, GAP_COUNTS, [3], pageSize);
    assert 3 in [3];
  }
}
