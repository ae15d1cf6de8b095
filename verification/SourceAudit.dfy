/** The audit of the five source levels: grouping by code, hierarchy checks, counters, canonical rows. */
module SourceAudit {
  import opened Basics
  import opened RowOrder
  import opened ExternalSort

  datatype NodeKind = Group | UnknownKind

  /** The fixed evidence table only speaks for the one source commit it was taken from. */
  datatype Manifest = Manifest(knownSource: bool, groups: set<(string, string, string)>)

  datatype CanonicalRow = CanonicalRow(level: nat, code: string, name: string, parentCode: Option<string>, kind: NodeKind, ancestors: seq<string>)

  datatype LevelReport = LevelReport(input: nat, valid: nat, duplicate: nat, conflict: nat, missingParent: nat, ancestorMismatch: nat, invalid: nat)

  type Index = map<string, CanonicalRow>

  const CODE_LENGTHS: seq<nat> := [2, 4, 6, 9, 12]
  const LEVELS: nat := 5

  // ----- one row -----

  predicate Digits(s: string, n: nat) { |s| == n && forall c | c in s :: '0' <= c <= '9' }

  predicate Blank(s: string) { forall c | c in s :: Space(c) }

  predicate Malformed(r: SourceRow, level: nat)
    requires 1 <= level <= LEVELS && |r.ancestors| == level - 1
  {
    !Digits(r.code, CODE_LENGTHS[level - 1]) || Blank(r.name)
    || exists i | 0 <= i < |r.ancestors| :: !Digits(r.ancestors[i], CODE_LENGTHS[i])
  }

  function Last(s: seq<string>): Option<string> { if s == [] then None else Some(s[|s| - 1]) }

  predicate MissingParent(r: SourceRow, level: nat, parents: Index)
    requires |r.ancestors| == level - 1
  {
    level > 1 && r.ancestors[level - 2] !in parents
  }

  predicate AncestorMismatch(r: SourceRow, level: nat, parents: Index)
    requires |r.ancestors| == level - 1
  {
    level > 1 && r.ancestors[level - 2] in parents
    && parents[r.ancestors[level - 2]].ancestors + [parents[r.ancestors[level - 2]].code] != r.ancestors
  }

  predicate RowOk(r: SourceRow, level: nat, parents: Index)
    requires 1 <= level <= LEVELS && |r.ancestors| == level - 1
  {
    !Malformed(r, level) && !MissingParent(r, level, parents) && !AncestorMismatch(r, level, parents)
  }

  function Classify(m: Manifest, r: SourceRow, level: nat): NodeKind {
    if m.knownSource && level == 2 && |r.ancestors| == 1 && (r.code, r.name, r.ancestors[0]) in m.groups then Group else UnknownKind
  }

  function Canonical(m: Manifest, r: SourceRow, level: nat): CanonicalRow {
    CanonicalRow(level, r.code, r.name, Last(r.ancestors), Classify(m, r, level), r.ancestors)
  }

  // ----- what a level's audit must report, in terms of its bag of rows -----

  predicate Shaped(rows: seq<SourceRow>, level: nat) { 1 <= level <= LEVELS && forall r | r in rows :: |r.ancestors| == level - 1 }

  /** The row is the only version of its code. */
  predicate Agreed(rows: seq<SourceRow>, r: SourceRow) { r in rows && forall q | q in rows && q.code == r.code :: q == r }

  ghost function Accepted(rows: seq<SourceRow>, level: nat, parents: Index): set<SourceRow>
    requires Shaped(rows, level)
  {
    set r | r in rows && Agreed(rows, r) && RowOk(r, level, parents)
  }

  ghost function Conflicting(rows: seq<SourceRow>): set<string> { set r | r in rows && !Agreed(rows, r) :: r.code }

  ghost function Distinct(rows: seq<SourceRow>): set<SourceRow> { set r | r in rows }

  function CountMalformed(rows: seq<SourceRow>, level: nat): nat
    requires Shaped(rows, level)
  {
    if rows == [] then 0 else CountMalformed(rows[..|rows| - 1], level) + if Malformed(rows[|rows| - 1], level) then 1 else 0
  }

  function CountMissing(rows: seq<SourceRow>, level: nat, parents: Index): nat
    requires Shaped(rows, level)
  {
    if rows == [] then 0 else CountMissing(rows[..|rows| - 1], level, parents) + if MissingParent(rows[|rows| - 1], level, parents) then 1 else 0
  }

  function CountMismatch(rows: seq<SourceRow>, level: nat, parents: Index): nat
    requires Shaped(rows, level)
  {
    if rows == [] then 0 else CountMismatch(rows[..|rows| - 1], level, parents) + if AncestorMismatch(rows[|rows| - 1], level, parents) then 1 else 0
  }

  predicate Ascending(rows: seq<CanonicalRow>) {
    forall i, j | 0 <= i < j < |rows| :: CompareStrings(rows[i].code, rows[j].code) < 0
  }

  ghost predicate EmitsExactly(out: seq<CanonicalRow>, m: Manifest, accepted: set<SourceRow>, level: nat) {
    && Ascending(out) && |out| == |accepted|
    && (forall c :: c in out <==> exists r :: r in accepted && c == Canonical(m, r, level))
  }

  datatype LevelResult = LevelResult(counts: LevelReport, rows: seq<CanonicalRow>)

  /** The verdict on every code: one canonical row if accepted, one conflict if its rows disagree. */
  ghost predicate Closed(rows: seq<SourceRow>, level: nat, parents: Index, m: Manifest, counts: LevelReport, out: seq<CanonicalRow>)
    requires Shaped(rows, level)
  {
    EmitsExactly(out, m, Accepted(rows, level, parents), level) && counts.valid == |out| && counts.conflict == |Conflicting(rows)|
  }

  /** The counters over the rows themselves. */
  ghost predicate Tallied(rows: seq<SourceRow>, level: nat, parents: Index, counts: LevelReport)
    requires Shaped(rows, level)
  {
    && counts.input == |rows| && counts.duplicate == |rows| - |Distinct(rows)|
    && counts.invalid == CountMalformed(rows, level)
    && counts.missingParent == CountMissing(rows, level, parents)
    && counts.ancestorMismatch == CountMismatch(rows, level, parents)
  }

  ghost predicate AuditsLevel(rows: seq<SourceRow>, level: nat, parents: Index, m: Manifest, result: LevelResult)
    requires Shaped(rows, level)
  {
    Closed(rows, level, parents, m, result.counts, result.rows) && Tallied(rows, level, parents, result.counts)
  }

  predicate Clean(c: LevelReport) { c.conflict == 0 && c.invalid == 0 && c.missingParent == 0 && c.ancestorMismatch == 0 }

  // ----- what that means for the source rows, told from them alone -----

  predicate AllDigits(s: string, n: nat) { |s| == n && forall i | 0 <= i < |s| :: '0' <= s[i] <= '9' }

  /** Codes have 2, 4, 6, 9 and 12 digits from the province down. */
  predicate CodeOfLevel(code: string, level: nat) {
    AllDigits(code, if level == 1 then 2 else if level == 2 then 4 else if level == 3 then 6 else if level == 4 then 9 else 12)
  }

  predicate WellFormed(r: SourceRow, level: nat) {
    && CodeOfLevel(r.code, level) && (exists i :: 0 <= i < |r.name| && !Space(r.name[i]))
    && forall i | 0 <= i < |r.ancestors| :: CodeOfLevel(r.ancestors[i], i + 1)
  }

  /** The last ancestor was emitted one level up, and the others are its own ancestors. */
  predicate HangsBelow(r: SourceRow, level: nat, parents: Index) {
    level == 1
    || (r.ancestors != [] && r.ancestors[|r.ancestors| - 1] in parents
        && parents[r.ancestors[|r.ancestors| - 1]].ancestors + [parents[r.ancestors[|r.ancestors| - 1]].code] == r.ancestors)
  }

  function ParentOfRow(r: SourceRow): Option<string> { if r.ancestors == [] then None else Some(r.ancestors[|r.ancestors| - 1]) }

  /** The evidence table names this city of this province as a group. */
  predicate IsGroup(m: Manifest, r: SourceRow, level: nat) {
    m.knownSource && level == 2 && |r.ancestors| == 1 && (r.code, r.name, r.ancestors[0]) in m.groups
  }

  predicate CarriesOver(c: CanonicalRow, r: SourceRow, level: nat, m: Manifest) {
    && c.level == level && c.code == r.code && c.name == r.name && c.ancestors == r.ancestors && c.parentCode == ParentOfRow(r)
    && c.kind == if IsGroup(m, r, level) then Group else UnknownKind
  }

  predicate OnlyVersion(rows: seq<SourceRow>, r: SourceRow) {
    forall i | 0 <= i < |rows| && rows[i].code == r.code :: rows[i] == r
  }

  /** A row is emitted, unchanged, exactly when it is the only version of its code, well formed, and hangs below an emitted row. */
  ghost predicate EmitsSource(rows: seq<SourceRow>, level: nat, parents: Index, m: Manifest, out: seq<CanonicalRow>) {
    && (forall c | c in out :: exists r :: r in rows && CarriesOver(c, r, level, m))
    && (forall r | r in rows ::
          (OnlyVersion(rows, r) && WellFormed(r, level) && HangsBelow(r, level, parents)) <==> exists c :: c in out && CarriesOver(c, r, level, m))
  }

  lemma DigitsByPlace(s: string, n: nat)
    ensures Digits(s, n) <==> AllDigits(s, n)
  {
    if Digits(s, n) { forall i | 0 <= i < |s| ensures '0' <= s[i] <= '9' { assert s[i] in s; } }
  }

  lemma WellFormedIff(r: SourceRow, level: nat)
    requires 1 <= level <= LEVELS && |r.ancestors| == level - 1
    ensures Malformed(r, level) <==> !WellFormed(r, level)
  {
    DigitsByPlace(r.code, CODE_LENGTHS[level - 1]);
    forall i | 0 <= i < |r.ancestors| ensures Digits(r.ancestors[i], CODE_LENGTHS[i]) <==> CodeOfLevel(r.ancestors[i], i + 1) {
      DigitsByPlace(r.ancestors[i], CODE_LENGTHS[i]);
    }
    assert Blank(r.name) <==> forall i | 0 <= i < |r.name| :: Space(r.name[i]);
  }

  lemma AcceptedIff(rows: seq<SourceRow>, level: nat, parents: Index, r: SourceRow)
    requires Shaped(rows, level) && r in rows
    ensures r in Accepted(rows, level, parents) <==> OnlyVersion(rows, r) && WellFormed(r, level) && HangsBelow(r, level, parents)
  {
    WellFormedIff(r, level);
    assert Agreed(rows, r) <==> OnlyVersion(rows, r);
  }

  lemma CanonicalCarries(m: Manifest, r: SourceRow, level: nat, c: CanonicalRow)
    ensures c == Canonical(m, r, level) <==> CarriesOver(c, r, level, m)
  {
  }

  lemma AuditEmitsSource(rows: seq<SourceRow>, level: nat, parents: Index, m: Manifest, result: LevelResult)
    requires Shaped(rows, level) && AuditsLevel(rows, level, parents, m, result)
    ensures EmitsSource(rows, level, parents, m, result.rows)
  {
    var accepted := Accepted(rows, level, parents);
    forall c | c in result.rows ensures exists r :: r in rows && CarriesOver(c, r, level, m) {
      var r :| r in accepted && c == Canonical(m, r, level);
      CanonicalCarries(m, r, level, c);
    }
    forall r | r in rows
      ensures (OnlyVersion(rows, r) && WellFormed(r, level) && HangsBelow(r, level, parents)) <==> exists c :: c in result.rows && CarriesOver(c, r, level, m)
    {
      AcceptedIff(rows, level, parents, r);
      EmittedIff(rows, level, parents, m, result, r);
    }
  }

  lemma EmittedIff(rows: seq<SourceRow>, level: nat, parents: Index, m: Manifest, result: LevelResult, r: SourceRow)
    requires Shaped(rows, level) && AuditsLevel(rows, level, parents, m, result) && r in rows
    ensures r in Accepted(rows, level, parents) <==> exists c :: c in result.rows && CarriesOver(c, r, level, m)
  {
    var accepted := Accepted(rows, level, parents);
    if r in accepted {
      CanonicalCarries(m, r, level, Canonical(m, r, level));
      assert Canonical(m, r, level) in result.rows;
    }
    if c :| c in result.rows && CarriesOver(c, r, level, m) {
      var q :| q in accepted && c == Canonical(m, q, level);
      assert Agreed(rows, q) && r.code == q.code;
    }
  }

  lemma {:induction false} CountsAreZero(rows: seq<SourceRow>, level: nat, parents: Index)
    requires Shaped(rows, level)
    ensures (CountMalformed(rows, level) == 0 && CountMissing(rows, level, parents) == 0 && CountMismatch(rows, level, parents) == 0)
            <==> forall r | r in rows :: RowOk(r, level, parents)
  {
    if rows != [] {
      var n := |rows| - 1;
      CountsAreZero(rows[..n], level, parents);
      assert rows == rows[..n] + [rows[n]];
      assert rows[n] in rows && forall r :: r in rows <==> r in rows[..n] || r == rows[n];
      assert RowOk(rows[n], level, parents) <==>
               !Malformed(rows[n], level) && !MissingParent(rows[n], level, parents) && !AncestorMismatch(rows[n], level, parents);
    }
  }

  lemma NoConflictIff(rows: seq<SourceRow>)
    ensures |Conflicting(rows)| == 0 <==> forall r | r in rows :: Agreed(rows, r)
  {
    if |Conflicting(rows)| == 0 {
      forall r | r in rows ensures Agreed(rows, r) { assert r.code !in Conflicting(rows); }
    } else {
      var code :| code in Conflicting(rows);
    }
  }

  /** A level is clean exactly when every one of its rows is emitted. */
  lemma CleanIff(rows: seq<SourceRow>, level: nat, parents: Index, m: Manifest, result: LevelResult)
    requires Shaped(rows, level) && AuditsLevel(rows, level, parents, m, result)
    ensures Clean(result.counts) <==> forall r | r in rows :: OnlyVersion(rows, r) && WellFormed(r, level) && HangsBelow(r, level, parents)
  {
    CountsAreZero(rows, level, parents);
    NoConflictIff(rows);
    forall r | r in rows
      ensures (Agreed(rows, r) && RowOk(r, level, parents)) <==> OnlyVersion(rows, r) && WellFormed(r, level) && HangsBelow(r, level, parents)
    {
      AcceptedIff(rows, level, parents, r);
    }
  }

  // ----- closing a group of equal codes -----

  /** rows[g..] all share one code that no earlier row has. */
  predicate OpenGroup(rows: seq<SourceRow>, g: nat) {
    && g < |rows|
    && (forall k | g <= k < |rows| :: rows[k].code == rows[g].code)
    && (forall k | 0 <= k < g :: CompareStrings(rows[k].code, rows[g].code) < 0)
  }

  predicate GroupAgrees(rows: seq<SourceRow>, g: nat)
    requires g < |rows|
  {
    forall k | g <= k < |rows| :: rows[k] == rows[g]
  }

  lemma AcceptedGrows(rows: seq<SourceRow>, g: nat, level: nat, parents: Index)
    requires OpenGroup(rows, g) && Shaped(rows, level) && Shaped(rows[..g], level)
    ensures Accepted(rows, level, parents) ==
              Accepted(rows[..g], level, parents) + if GroupAgrees(rows, g) && RowOk(rows[g], level, parents) then {rows[g]} else {}
    ensures rows[g] !in Accepted(rows[..g], level, parents)
  {
    var expected := Accepted(rows[..g], level, parents) + if GroupAgrees(rows, g) && RowOk(rows[g], level, parents) then {rows[g]} else {};
    assert rows[g..][0] == rows[g];
    assert forall r :: r in Accepted(rows, level, parents) <==> r in expected;
  }

  lemma ConflictingGrows(rows: seq<SourceRow>, g: nat)
    requires OpenGroup(rows, g)
    ensures Conflicting(rows) == Conflicting(rows[..g]) + if GroupAgrees(rows, g) then {} else {rows[g].code}
    ensures rows[g].code !in Conflicting(rows[..g])
  {
    var expected := Conflicting(rows[..g]) + if GroupAgrees(rows, g) then {} else {rows[g].code};
    assert rows[g..][0] == rows[g];
    forall c | c in Conflicting(rows) ensures c in expected {
      var r :| r in rows && !Agreed(rows, r) && r.code == c;
    }
    forall c | c in expected ensures c in Conflicting(rows) {
      if c in Conflicting(rows[..g]) {
        var r :| r in rows[..g] && !Agreed(rows[..g], r) && r.code == c;
      }
    }
    assert forall r | r in rows[..g] :: r.code != rows[g].code;
  }

  lemma AscendingExtends(out: seq<CanonicalRow>, m: Manifest, rows: seq<SourceRow>, g: nat, before: set<SourceRow>, level: nat)
    requires OpenGroup(rows, g) && EmitsExactly(out, m, before, level) && before <= Distinct(rows[..g])
    ensures Ascending(out + [Canonical(m, rows[g], level)])
  {
    forall i | 0 <= i < |out| ensures CompareStrings(out[i].code, rows[g].code) < 0 {
      assert out[i] in out;
      var r :| r in before && out[i] == Canonical(m, r, level);
      assert r in rows[..g];
      var k :| 0 <= k < g && rows[k] == r;
    }
  }

  lemma EmitNext(out: seq<CanonicalRow>, m: Manifest, rows: seq<SourceRow>, g: nat, level: nat, before: set<SourceRow>)
    requires OpenGroup(rows, g) && EmitsExactly(out, m, before, level) && before <= Distinct(rows[..g]) && rows[g] !in before
    ensures EmitsExactly(out + [Canonical(m, rows[g], level)], m, before + {rows[g]}, level)
  {
    AscendingExtends(out, m, rows, g, before, level);
    var row, after := Canonical(m, rows[g], level), before + {rows[g]};
    forall c ensures c in out + [row] <==> exists r :: r in after && c == Canonical(m, r, level) {
      if c in out {
        var r :| r in before && c == Canonical(m, r, level);
        assert r in after;
      } else if c == row {
        assert rows[g] in after;
      }
    }
  }

  // ----- the loop variables of the fold -----

  datatype Fold = Fold(first: Option<SourceRow>, previousTuple: Option<seq<seq<string>>>, hasConflict: bool, groupInvalid: bool, candidate: Option<CanonicalRow>)

  const EMPTY_GROUP := Fold(None, None, false, false, None)

  /** What the loop variables say about the open group rows[g..]. */
  ghost predicate GroupState(rows: seq<SourceRow>, g: nat, level: nat, parents: Index, m: Manifest, f: Fold)
    requires Shaped(rows, level)
  {
    if rows == [] then g == 0 && f == EMPTY_GROUP
    else
      && OpenGroup(rows, g) && f.first == Some(rows[g])
      && f.previousTuple == Some(SourceTuple(rows[|rows| - 1])) && f.candidate == Some(Canonical(m, rows[|rows| - 1], level))
      && (f.hasConflict <==> !GroupAgrees(rows, g))
      && (f.groupInvalid <==> exists k | g <= k < |rows| :: !RowOk(rows[k], level, parents))
  }

  lemma FinishCloses(rows: seq<SourceRow>, g: nat, level: nat, parents: Index, m: Manifest, f: Fold, counts: LevelReport, out: seq<CanonicalRow>)
    requires rows != [] && Shaped(rows, level) && GroupState(rows, g, level, parents, m, f)
    requires Shaped(rows[..g], level) && Closed(rows[..g], level, parents, m, counts, out)
    ensures f.hasConflict ==> Closed(rows, level, parents, m, counts.(conflict := counts.conflict + 1), out)
    ensures !f.hasConflict && f.groupInvalid ==> Closed(rows, level, parents, m, counts, out)
    ensures !f.hasConflict && !f.groupInvalid ==>
              Closed(rows, level, parents, m, counts.(valid := counts.valid + 1), out + [f.candidate.value])
  {
    AcceptedGrows(rows, g, level, parents);
    ConflictingGrows(rows, g);
    if GroupAgrees(rows, g) {
      assert rows[|rows| - 1] == rows[g];
      if RowOk(rows[g], level, parents) { EmitNext(out, m, rows, g, level, Accepted(rows[..g], level, parents)); }
    }
  }

  /** The loop variables after one more row of the open group, or of a new one. */
  function Absorb(f: Fold, raw: SourceRow, level: nat, parents: Index, m: Manifest): Fold
    requires 1 <= level <= LEVELS && |raw.ancestors| == level - 1
  {
    Fold(if f.first.None? then Some(raw) else f.first, Some(SourceTuple(raw)),
         f.hasConflict || (f.first.Some? && f.previousTuple != Some(SourceTuple(raw))),
         f.groupInvalid || !RowOk(raw, level, parents), Some(Canonical(m, raw, level)))
  }

  lemma AbsorbKeeps(rows: seq<SourceRow>, g: nat, raw: SourceRow, level: nat, parents: Index, m: Manifest, f: Fold)
    requires Shaped(rows + [raw], level) && Shaped(rows, level) && Sorted(rows + [raw])
    requires rows != [] && GroupState(rows, g, level, parents, m, f) && raw.code == rows[g].code
    ensures GroupState(rows + [raw], g, level, parents, m, Absorb(f, raw, level, parents, m))
  {
    var all := rows + [raw];
    assert forall k | 0 <= k < |rows| :: all[k] == rows[k];
    assert all[|rows|] == raw;
    if GroupAgrees(rows, g) {
      assert rows[|rows| - 1] == rows[g];
    } else {
      var k :| g <= k < |rows| && rows[k] != rows[g];
      assert all[k] != all[g];
    }
    var f' := Absorb(f, raw, level, parents, m);
    if f'.groupInvalid {
      if f.groupInvalid {
        var k :| g <= k < |rows| && !RowOk(rows[k], level, parents);
        assert !RowOk(all[k], level, parents);
      } else {
        assert !RowOk(all[|rows|], level, parents);
      }
    }
  }

  lemma StartKeeps(rows: seq<SourceRow>, raw: SourceRow, level: nat, parents: Index, m: Manifest)
    requires Shaped(rows + [raw], level) && Sorted(rows + [raw]) && (rows != [] ==> rows[|rows| - 1].code != raw.code)
    ensures GroupState(rows + [raw], |rows|, level, parents, m, Absorb(EMPTY_GROUP, raw, level, parents, m))
  {
    NewGroupStarts(rows, raw);
    assert (rows + [raw])[|rows|] == raw;
  }

  lemma SameCodeIsNew(rows: seq<SourceRow>, raw: SourceRow)
    requires Sorted(rows + [raw]) && rows != []
    ensures raw in rows <==> SourceTuple(raw) == SourceTuple(rows[|rows| - 1])
  {
    var all, last := rows + [raw], rows[|rows| - 1];
    if raw in rows {
      var k :| 0 <= k < |rows| && rows[k] == raw;
      if k < |rows| - 1 {
        assert Le(all[k], all[|rows| - 1]) && Le(all[|rows| - 1], all[|rows|]);
        RowsOrdered(raw, last, raw);
      }
    }
  }

  lemma NewGroupStarts(rows: seq<SourceRow>, raw: SourceRow)
    requires Sorted(rows + [raw]) && (rows != [] ==> rows[|rows| - 1].code != raw.code)
    ensures OpenGroup(rows + [raw], |rows|) && raw !in rows
  {
    var all := rows + [raw];
    forall k | 0 <= k < |rows| ensures CompareStrings(all[k].code, raw.code) < 0 {
      var last := all[|rows| - 1];
      assert Le(all[k], all[|rows|]) && Le(last, all[|rows|]);
      if k < |rows| - 1 { assert Le(all[k], last); }
      StringsOrdered(all[k].code, last.code, raw.code);
      StringsOrdered(raw.code, all[k].code, last.code);
      StringsOrdered(last.code, raw.code, all[k].code);
    }
    assert forall k | 0 <= k < |rows| :: rows[k] == all[k];
  }

  lemma TallyNext(rows: seq<SourceRow>, raw: SourceRow, level: nat, parents: Index)
    requires Shaped(rows + [raw], level)
    ensures Shaped(rows, level)
    ensures CountMalformed(rows + [raw], level) == CountMalformed(rows, level) + if Malformed(raw, level) then 1 else 0
    ensures CountMissing(rows + [raw], level, parents) == CountMissing(rows, level, parents) + if MissingParent(raw, level, parents) then 1 else 0
    ensures CountMismatch(rows + [raw], level, parents) == CountMismatch(rows, level, parents) + if AncestorMismatch(raw, level, parents) then 1 else 0
    ensures |Distinct(rows + [raw])| == |Distinct(rows)| + if raw in rows then 0 else 1
  {
    var all := rows + [raw];
    assert all[..|all| - 1] == rows;
    forall r | r in rows ensures |r.ancestors| == level - 1 { assert r in all; }
    assert Distinct(all) == Distinct(rows) + {raw};
  }

  // ----- the fold -----

  lemma PrefixFits(rows: seq<SourceRow>, level: nat, i: nat)
    requires Shaped(rows, level) && Sorted(rows) && i < |rows|
    ensures Shaped(rows[..i], level) && Shaped(rows[..i] + [rows[i]], level) && Sorted(rows[..i] + [rows[i]])
    ensures rows[..i + 1] == rows[..i] + [rows[i]]
  {
  }

  /** The loop invariant: `seen` is tallied, its closed groups are reported, the rest is the open group. */
  ghost predicate Folding(seen: seq<SourceRow>, closed: seq<SourceRow>, level: nat, parents: Index, m: Manifest,
                          f: Fold, counts: LevelReport, out: seq<CanonicalRow>) {
    && Shaped(seen, level) && Shaped(closed, level) && closed <= seen
    && GroupState(seen, |closed|, level, parents, m, f)
    && Tallied(seen, level, parents, counts)
    && Closed(closed, level, parents, m, counts, out)
  }

  method AuditLevel(rows: seq<SourceRow>, level: nat, parents: Index, m: Manifest) returns (result: LevelResult)
    requires Shaped(rows, level) && Sorted(rows)
    ensures AuditsLevel(rows, level, parents, m, result)
    ensures EmitsSource(rows, level, parents, m, result.rows)
    ensures Clean(result.counts) <==> forall r | r in rows :: OnlyVersion(rows, r) && WellFormed(r, level) && HangsBelow(r, level, parents)
  {
    var counts := LevelReport(0, 0, 0, 0, 0, 0, 0);
    var out: seq<CanonicalRow> := [];
    var f := EMPTY_GROUP;
    ghost var closed: seq<SourceRow> := [];
    for i := 0 to |rows|
      invariant Folding(rows[..i], closed, level, parents, m, f, counts, out)
    {
      PrefixFits(rows, level, i);
      counts, out, f, closed := NextRow(rows[..i], closed, rows[i], level, parents, m, counts, out, f);
    }
    assert rows[..|rows|] == rows;
    if f.first.Some? { counts, out := FinishGroup(rows, closed, level, parents, m, f, counts, out); }
    result := LevelResult(counts, out);
    AuditEmitsSource(rows, level, parents, m, result);
    CleanIff(rows, level, parents, m, result);
  }

  method NextRow(ghost seen: seq<SourceRow>, ghost closed: seq<SourceRow>, raw: SourceRow, level: nat, parents: Index, m: Manifest,
                 counts: LevelReport, out: seq<CanonicalRow>, f: Fold)
    returns (counts': LevelReport, out': seq<CanonicalRow>, f': Fold, ghost closed': seq<SourceRow>)
    requires Folding(seen, closed, level, parents, m, f, counts, out)
    requires Shaped(seen + [raw], level) && Sorted(seen + [raw])
    ensures Folding(seen + [raw], closed', level, parents, m, f', counts', out')
  {
    counts', out', f', closed' := counts, out, f, closed;
    if f.first.Some? && raw.code != f.first.value.code {
      counts', out' := FinishGroup(seen, closed, level, parents, m, f, counts, out);
      f', closed' := EMPTY_GROUP, seen;
    }
    FoldStep(seen, |closed'|, raw, level, parents, m, f', counts');
    counts', f' := Take(raw, level, parents, m, counts', f');
  }

  /** One more row: its counters and its share of the open group. */
  method Take(raw: SourceRow, level: nat, parents: Index, m: Manifest, counts: LevelReport, f: Fold) returns (counts': LevelReport, f': Fold)
    requires 1 <= level <= LEVELS && |raw.ancestors| == level - 1
    ensures f' == Absorb(f, raw, level, parents, m)
    ensures counts' == Tally(counts, f, raw, level, parents)
  {
    counts', f' := counts.(input := counts.input + 1), f;
    var tuple := SourceTuple(raw);
    if f.first.None? {
      f' := f'.(first := Some(raw));
    } else if Some(tuple) == f.previousTuple {
      counts' := counts'.(duplicate := counts'.duplicate + 1);
    } else {
      f' := f'.(hasConflict := true);
    }
    f' := f'.(previousTuple := Some(tuple));
    if Malformed(raw, level) { counts', f' := counts'.(invalid := counts'.invalid + 1), f'.(groupInvalid := true); }
    if level > 1 {
      if MissingParent(raw, level, parents) {
        counts', f' := counts'.(missingParent := counts'.missingParent + 1), f'.(groupInvalid := true);
      } else if AncestorMismatch(raw, level, parents) {
        counts', f' := counts'.(ancestorMismatch := counts'.ancestorMismatch + 1), f'.(groupInvalid := true);
      }
    }
    f' := f'.(candidate := Some(Canonical(m, raw, level)));
  }

  function Tally(counts: LevelReport, f: Fold, raw: SourceRow, level: nat, parents: Index): LevelReport
    requires 1 <= level <= LEVELS && |raw.ancestors| == level - 1
  {
    counts.(input := counts.input + 1,
            duplicate := counts.duplicate + if f.first.Some? && f.previousTuple == Some(SourceTuple(raw)) then 1 else 0,
            invalid := counts.invalid + if Malformed(raw, level) then 1 else 0,
            missingParent := counts.missingParent + if MissingParent(raw, level, parents) then 1 else 0,
            ancestorMismatch := counts.ancestorMismatch + if AncestorMismatch(raw, level, parents) then 1 else 0)
  }

  lemma FoldStep(rows: seq<SourceRow>, g: nat, raw: SourceRow, level: nat, parents: Index, m: Manifest, f: Fold, counts: LevelReport)
    requires Shaped(rows + [raw], level) && Shaped(rows, level) && Sorted(rows + [raw]) && Tallied(rows, level, parents, counts)
    requires if f.first.Some? then rows != [] && GroupState(rows, g, level, parents, m, f) && raw.code == rows[g].code
             else f == EMPTY_GROUP && g == |rows| && (rows != [] ==> rows[|rows| - 1].code != raw.code)
    ensures GroupState(rows + [raw], g, level, parents, m, Absorb(f, raw, level, parents, m))
    ensures Tallied(rows + [raw], level, parents, Tally(counts, f, raw, level, parents))
  {
    TallyNext(rows, raw, level, parents);
    if f.first.None? {
      NewGroupStarts(rows, raw);
      StartKeeps(rows, raw, level, parents, m);
    } else {
      SameCodeIsNew(rows, raw);
      AbsorbKeeps(rows, g, raw, level, parents, m, f);
    }
  }

  /** Reports the open group: a conflict, one canonical row, or nothing. */
  method FinishGroup(ghost rows: seq<SourceRow>, ghost closed: seq<SourceRow>, ghost level: nat, ghost parents: Index, ghost m: Manifest,
                     f: Fold, counts: LevelReport, out: seq<CanonicalRow>) returns (counts': LevelReport, out': seq<CanonicalRow>)
    requires rows != [] && Shaped(rows, level) && closed <= rows && GroupState(rows, |closed|, level, parents, m, f)
    requires Shaped(closed, level) && Closed(closed, level, parents, m, counts, out) && Tallied(rows, level, parents, counts)
    ensures Closed(rows, level, parents, m, counts', out') && Tallied(rows, level, parents, counts')
  {
    assert rows[..|closed|] == closed;
    FinishCloses(rows, |closed|, level, parents, m, f, counts, out);
    counts', out' := counts, out;
    if f.hasConflict {
      counts' := counts.(conflict := counts.conflict + 1);
    } else if !f.groupInvalid {
      counts' := counts.(valid := counts.valid + 1);
      out' := out + [f.candidate.value];
    }
  }
}
