/** The region index built from a flat snapshot: the checks, the division trees, and the parent walk. */
module RegionForest {
  import opened Basics

  datatype RegionNode = RegionNode(code: string, name: string, level: nat, parentCode: Option<string>)
  datatype Tree = Tree(code: string, name: string, children: seq<Tree>)

  /** Nodes by code, and the codes of each node's children in snapshot order. */
  datatype Index = Index(byCode: map<string, RegionNode>, children: map<string, seq<string>>)
  datatype RegionIndex = RegionIndex(index: Index, divisions: seq<Tree>)

  const INDEXED_LEVELS := 4

  // ----- which snapshots are accepted -----

  predicate CodesValid(nodes: seq<RegionNode>) {
    (forall i | 0 <= i < |nodes| :: nodes[i].code != "") && forall i, j | 0 <= i < j < |nodes| :: nodes[i].code != nodes[j].code
  }

  predicate HasCode(nodes: seq<RegionNode>, code: string) { exists j :: 0 <= j < |nodes| && nodes[j].code == code }

  predicate IsParent(nodes: seq<RegionNode>, j: int, n: RegionNode) {
    0 <= j < |nodes| && n.parentCode == Some(nodes[j].code) && nodes[j].level < n.level
  }

  /** A root has no parent in the snapshot; any other node has one, on a smaller level. */
  predicate NodeValid(nodes: seq<RegionNode>, n: RegionNode) {
    if n.level == 1 then n.parentCode.Some? ==> !HasCode(nodes, n.parentCode.value)
    else exists j :: 0 <= j < |nodes| && IsParent(nodes, j, n)
  }

  predicate RootWithChild(nodes: seq<RegionNode>, i: int, j: int) {
    0 <= i < |nodes| && 0 <= j < |nodes| && nodes[i].level == 1 && nodes[j].level != 1 && nodes[j].parentCode == Some(nodes[i].code)
  }

  predicate ValidSnapshot(nodes: seq<RegionNode>) {
    && CodesValid(nodes) && (forall i | 0 <= i < |nodes| :: NodeValid(nodes, nodes[i]))
    && exists i, j :: 0 <= i < |nodes| && 0 <= j < |nodes| && RootWithChild(nodes, i, j)
  }

  // ----- the linked nodes -----

  predicate Child(ix: Index, c: string, x: string) {
    && c in ix.byCode && x in ix.byCode && ix.byCode[x].level != 1 && ix.byCode[x].parentCode == Some(c)
    && ix.byCode[c].level < ix.byCode[x].level
  }

  predicate Once(codes: seq<string>) { forall i, j | 0 <= i < j < |codes| :: codes[i] != codes[j] }

  /** Child lists and parent codes say the same, and levels grow downwards. */
  predicate Linked(ix: Index) {
    && (forall c | c in ix.byCode :: c in ix.children && Once(ix.children[c]) && ix.byCode[c].code == c)
    && (forall c, k | c in ix.byCode && 0 <= k < |ix.children[c]| :: Child(ix, c, ix.children[c][k]))
    && forall x | x in ix.byCode && ix.byCode[x].level != 1 ::
         ix.byCode[x].parentCode.Some? && Child(ix, ix.byCode[x].parentCode.value, x) && x in ix.children[ix.byCode[x].parentCode.value]
  }

  predicate Indexed(ix: Index, c: string) { c in ix.byCode && 1 <= ix.byCode[c].level <= INDEXED_LEVELS }

  function Height(level: nat): nat { if level <= INDEXED_LEVELS then INDEXED_LEVELS + 1 - level else 0 }

  /** The division tree of a node; it ends because levels grow and stop at the fourth. */
  function ToTree(ix: Index, c: string): Tree
    requires Linked(ix) && c in ix.byCode
    decreases Height(ix.byCode[c].level), 1, 0
  {
    Tree(c, ix.byCode[c].name, ToTrees(ix, c, ix.children[c]))
  }

  function ToTrees(ix: Index, c: string, codes: seq<string>): seq<Tree>
    requires Linked(ix) && c in ix.byCode && forall k | 0 <= k < |codes| :: Child(ix, c, codes[k])
    decreases Height(ix.byCode[c].level), 0, |codes|
  {
    if codes == [] then []
    else
      assert Child(ix, c, codes[0]);
      (if Indexed(ix, codes[0]) then [ToTree(ix, codes[0])] else []) + ToTrees(ix, c, codes[1..])
  }

  // ----- flattening -----

  datatype Entry = Entry(code: string, name: string, parent: Option<string>)

  function Flatten(t: Tree, parent: Option<string>): seq<Entry>
    decreases t, 1, 0
  {
    [Entry(t.code, t.name, parent)] + FlattenAll(t.children, Some(t.code))
  }

  function FlattenAll(ts: seq<Tree>, parent: Option<string>): seq<Entry>
    decreases ts, 0, |ts|
  {
    if ts == [] then [] else Flatten(ts[0], parent) + FlattenAll(ts[1..], parent)
  }

  /** x is c or lies under it. */
  predicate Under(ix: Index, c: string, x: string)
    requires Linked(ix) && x in ix.byCode
    decreases ix.byCode[x].level
  {
    x == c || (ix.byCode[x].level != 1 && Under(ix, c, ix.byCode[x].parentCode.value))
  }

  function ParentOf(ix: Index, x: string): Option<string>
    requires x in ix.byCode
  {
    if ix.byCode[x].level == 1 then None else ix.byCode[x].parentCode
  }

  lemma {:induction false} UnderIsBelow(ix: Index, c: string, x: string)
    requires Linked(ix) && x in ix.byCode && c in ix.byCode && Under(ix, c, x)
    ensures x == c || ix.byCode[c].level < ix.byCode[x].level
    decreases ix.byCode[x].level
  {
    if x != c { UnderIsBelow(ix, c, ix.byCode[x].parentCode.value); }
  }

  /** Nodes above one node form a chain. */
  lemma {:induction false} UnderChain(ix: Index, a: string, b: string, x: string)
    requires Linked(ix) && x in ix.byCode && a in ix.byCode && b in ix.byCode && Under(ix, a, x) && Under(ix, b, x)
    ensures Under(ix, a, b) || Under(ix, b, a)
    decreases ix.byCode[x].level
  {
    if x != a && x != b { UnderChain(ix, a, b, ix.byCode[x].parentCode.value); }
  }

  lemma SiblingsAreApart(ix: Index, c: string, a: string, b: string, x: string)
    requires Linked(ix) && Child(ix, c, a) && Child(ix, c, b) && a != b && x in ix.byCode
    ensures !(Under(ix, a, x) && Under(ix, b, x))
  {
    if Under(ix, a, x) && Under(ix, b, x) {
      UnderChain(ix, a, b, x);
      if Under(ix, a, b) { UnderIsBelow(ix, a, c); } else { UnderIsBelow(ix, b, c); }
      assert false;
    }
  }

  lemma {:induction false} UnderThroughChild(ix: Index, c: string, x: string) returns (k: nat)
    requires Linked(ix) && x in ix.byCode && c in ix.byCode && Under(ix, c, x) && x != c
    ensures k < |ix.children[c]| && Under(ix, ix.children[c][k], x)
    decreases ix.byCode[x].level
  {
    var p := ix.byCode[x].parentCode.value;
    if p == c {
      assert x in ix.children[c];
      k :| 0 <= k < |ix.children[c]| && ix.children[c][k] == x;
    } else {
      k := UnderThroughChild(ix, c, p);
    }
  }

  lemma {:induction false} UnderLifts(ix: Index, c: string, a: string, x: string)
    requires Linked(ix) && x in ix.byCode && Child(ix, c, a) && Under(ix, a, x)
    ensures Under(ix, c, x) && x != c
    decreases ix.byCode[x].level
  {
    UnderIsBelow(ix, a, x);
    if x != a {
      UnderLifts(ix, c, a, ix.byCode[x].parentCode.value);
    } else {
      assert Under(ix, c, c);
    }
  }

  // ----- the entries of a tree -----

  predicate InTree(ix: Index, c: string, e: Entry)
    requires Linked(ix)
  {
    Indexed(ix, e.code) && Under(ix, c, e.code) && e.name == ix.byCode[e.code].name && e.parent == ParentOf(ix, e.code)
  }

  predicate InSome(ix: Index, codes: seq<string>, e: Entry)
    requires Linked(ix)
  {
    exists k :: 0 <= k < |codes| && InTree(ix, codes[k], e)
  }

  lemma ChildIsIndexed(ix: Index, c: string, a: string, e: Entry)
    requires Linked(ix) && Child(ix, c, a) && InTree(ix, a, e)
    ensures Indexed(ix, a)
  {
    UnderIsBelow(ix, a, e.code);
  }

  lemma {:induction false} TreeEntries(ix: Index, c: string, e: Entry)
    requires Linked(ix) && Indexed(ix, c)
    ensures e in Flatten(ToTree(ix, c), ParentOf(ix, c)) <==> InTree(ix, c, e)
    decreases Height(ix.byCode[c].level), 1, 0
  {
    TreesEntries(ix, c, ix.children[c], e);
    if InTree(ix, c, e) && e.code != c {
      var k := UnderThroughChild(ix, c, e.code);
      assert InTree(ix, ix.children[c][k], e);
    }
    if InSome(ix, ix.children[c], e) {
      var k :| 0 <= k < |ix.children[c]| && InTree(ix, ix.children[c][k], e);
      UnderLifts(ix, c, ix.children[c][k], e.code);
    }
  }

  lemma {:induction false} TreesEntries(ix: Index, c: string, codes: seq<string>, e: Entry)
    requires Linked(ix) && Indexed(ix, c) && forall k | 0 <= k < |codes| :: Child(ix, c, codes[k])
    ensures e in FlattenAll(ToTrees(ix, c, codes), Some(c)) <==> InSome(ix, codes, e)
    decreases Height(ix.byCode[c].level), 0, |codes|
  {
    if codes != [] {
      var a, rest := codes[0], ToTrees(ix, c, codes[1..]);
      TreesEntries(ix, c, codes[1..], e);
      if Indexed(ix, a) {
        TreeEntries(ix, a, e);
        assert ([ToTree(ix, a)] + rest)[1..] == rest;
      } else {
        assert [] + rest == rest;
        if InTree(ix, a, e) { ChildIsIndexed(ix, c, a, e); }
      }
    }
  }

  // ----- each code once -----

  predicate CodesOnce(es: seq<Entry>) { forall i, j | 0 <= i < j < |es| :: es[i].code != es[j].code }

  lemma {:induction false} TreeOnce(ix: Index, c: string)
    requires Linked(ix) && Indexed(ix, c)
    ensures CodesOnce(Flatten(ToTree(ix, c), ParentOf(ix, c)))
    decreases Height(ix.byCode[c].level), 1, 0
  {
    var below := FlattenAll(ToTrees(ix, c, ix.children[c]), Some(c));
    TreesOnce(ix, c, ix.children[c]);
    forall e | e in below ensures e.code != c {
      TreesEntries(ix, c, ix.children[c], e);
      var k :| 0 <= k < |ix.children[c]| && InTree(ix, ix.children[c][k], e);
      UnderLifts(ix, c, ix.children[c][k], e.code);
    }
  }

  lemma {:induction false} TreesOnce(ix: Index, c: string, codes: seq<string>)
    requires Linked(ix) && Indexed(ix, c) && Once(codes) && forall k | 0 <= k < |codes| :: Child(ix, c, codes[k])
    ensures CodesOnce(FlattenAll(ToTrees(ix, c, codes), Some(c)))
    decreases Height(ix.byCode[c].level), 0, |codes|
  {
    if codes != [] {
      var a, rest := codes[0], ToTrees(ix, c, codes[1..]);
      TreesOnce(ix, c, codes[1..]);
      if Indexed(ix, a) {
        TreeOnce(ix, a);
        assert ([ToTree(ix, a)] + rest)[1..] == rest;
        ApartFromRest(ix, c, codes);
      } else {
        assert [] + rest == rest;
      }
    }
  }

  lemma ApartFromRest(ix: Index, c: string, codes: seq<string>)
    requires Linked(ix) && Indexed(ix, c) && codes != [] && Once(codes) && (forall k | 0 <= k < |codes| :: Child(ix, c, codes[k])) && Indexed(ix, codes[0])
    ensures forall e, f | e in Flatten(ToTree(ix, codes[0]), Some(c)) && f in FlattenAll(ToTrees(ix, c, codes[1..]), Some(c)) :: e.code != f.code
  {
    forall e, f | e in Flatten(ToTree(ix, codes[0]), Some(c)) && f in FlattenAll(ToTrees(ix, c, codes[1..]), Some(c)) ensures e.code != f.code {
      TreeEntries(ix, codes[0], e);
      TreesEntries(ix, c, codes[1..], f);
      var k :| 0 <= k < |codes| - 1 && InTree(ix, codes[1..][k], f);
      assert codes[1..][k] == codes[k + 1];
      SiblingsAreApart(ix, c, codes[0], codes[k + 1], e.code);
    }
  }

  // ----- the divisions -----

  function RootTrees(ix: Index, roots: seq<string>): seq<Tree>
    requires Linked(ix) && forall k | 0 <= k < |roots| :: roots[k] in ix.byCode
  {
    if roots == [] then []
    else (if ix.children[roots[0]] != [] then [ToTree(ix, roots[0])] else []) + RootTrees(ix, roots[1..])
  }

  predicate Roots(ix: Index, roots: seq<string>) {
    Once(roots) && forall k | 0 <= k < |roots| :: roots[k] in ix.byCode && ix.byCode[roots[k]].level == 1
  }

  predicate InDivision(ix: Index, r: string, e: Entry)
    requires Linked(ix) && r in ix.byCode
  {
    ix.children[r] != [] && InTree(ix, r, e)
  }

  lemma {:induction false} DivisionEntries(ix: Index, roots: seq<string>, e: Entry)
    requires Linked(ix) && Roots(ix, roots)
    ensures e in FlattenAll(RootTrees(ix, roots), None) <==> exists k :: 0 <= k < |roots| && InDivision(ix, roots[k], e)
  {
    if roots != [] {
      var rest := RootTrees(ix, roots[1..]);
      DivisionEntries(ix, roots[1..], e);
      if ix.children[roots[0]] != [] {
        TreeEntries(ix, roots[0], e);
        assert ([ToTree(ix, roots[0])] + rest)[1..] == rest;
      } else {
        assert [] + rest == rest;
      }
      if k :| 0 <= k < |roots| && InDivision(ix, roots[k], e) {
        if k > 0 { assert roots[1..][k - 1] == roots[k]; }
      }
      if k :| 0 <= k < |roots| - 1 && InDivision(ix, roots[1..][k], e) { assert roots[1..][k] == roots[k + 1]; }
    }
  }

  lemma RootsAreApart(ix: Index, a: string, b: string, x: string)
    requires Linked(ix) && a in ix.byCode && b in ix.byCode && x in ix.byCode && ix.byCode[a].level == 1 && ix.byCode[b].level == 1
    requires Under(ix, a, x) && Under(ix, b, x)
    ensures a == b
  {
    UnderChain(ix, a, b, x);
  }

  lemma {:induction false} DivisionsOnce(ix: Index, roots: seq<string>)
    requires Linked(ix) && Roots(ix, roots)
    ensures CodesOnce(FlattenAll(RootTrees(ix, roots), None))
  {
    if roots != [] {
      var a, rest := roots[0], RootTrees(ix, roots[1..]);
      DivisionsOnce(ix, roots[1..]);
      if ix.children[a] != [] {
        TreeOnce(ix, a);
        assert ([ToTree(ix, a)] + rest)[1..] == rest;
        forall e, f | e in Flatten(ToTree(ix, a), None) && f in FlattenAll(rest, None) ensures e.code != f.code {
          TreeEntries(ix, a, e);
          DivisionEntries(ix, roots[1..], f);
          var k :| 0 <= k < |roots| - 1 && InDivision(ix, roots[1..][k], f);
          assert roots[1..][k] == roots[k + 1];
          if e.code == f.code { RootsAreApart(ix, a, roots[k + 1], e.code); }
        }
      } else {
        assert [] + rest == rest;
      }
    }
  }

  lemma {:induction false} HasRoot(ix: Index, x: string) returns (r: string)
    requires Linked(ix) && x in ix.byCode
    ensures r in ix.byCode && ix.byCode[r].level == 1 && Under(ix, r, x)
    decreases ix.byCode[x].level
  {
    if ix.byCode[x].level == 1 { r := x; } else { r := HasRoot(ix, ix.byCode[x].parentCode.value); }
  }

  /** What the divisions must hold: the nodes of levels 1 to 4 except roots without children, under their parents. */
  predicate Expected(ix: Index, e: Entry) {
    && Indexed(ix, e.code) && e.code in ix.children && !(ix.byCode[e.code].level == 1 && ix.children[e.code] == [])
    && e.name == ix.byCode[e.code].name && e.parent == ParentOf(ix, e.code)
  }

  /** Nothing is lost, doubled or moved. */
  lemma ForestConserves(ix: Index, roots: seq<string>, e: Entry)
    requires Linked(ix) && Roots(ix, roots) && forall c | c in ix.byCode && ix.byCode[c].level == 1 :: c in roots
    ensures e in FlattenAll(RootTrees(ix, roots), None) <==> Expected(ix, e)
  {
    DivisionEntries(ix, roots, e);
    if k :| 0 <= k < |roots| && InDivision(ix, roots[k], e) {
      if ix.byCode[e.code].level == 1 { assert e.code == roots[k]; }
    }
    if Expected(ix, e) {
      var r := HasRoot(ix, e.code);
      if r != e.code { var j := UnderThroughChild(ix, r, e.code); }
      var k :| 0 <= k < |roots| && roots[k] == r;
      assert InDivision(ix, roots[k], e);
    }
  }

  // ----- building the index -----

  function ByCode(nodes: seq<RegionNode>): map<string, RegionNode> {
    if nodes == [] then map[] else ByCode(nodes[..|nodes| - 1])[nodes[|nodes| - 1].code := nodes[|nodes| - 1]]
  }

  function ChildCodes(nodes: seq<RegionNode>, c: string): seq<string> {
    if nodes == [] then [] else
      var n := nodes[|nodes| - 1];
      ChildCodes(nodes[..|nodes| - 1], c) + if n.level != 1 && n.parentCode == Some(c) then [n.code] else []
  }

  function RootCodes(nodes: seq<RegionNode>): seq<string> {
    if nodes == [] then [] else
      var n := nodes[|nodes| - 1];
      RootCodes(nodes[..|nodes| - 1]) + if n.level == 1 then [n.code] else []
  }

  function Links(nodes: seq<RegionNode>): Index { Index(ByCode(nodes), map c | c in ByCode(nodes) :: ChildCodes(nodes, c)) }

  lemma {:induction false} ByCodeIs(nodes: seq<RegionNode>)
    requires CodesValid(nodes)
    ensures forall i | 0 <= i < |nodes| :: nodes[i].code in ByCode(nodes) && ByCode(nodes)[nodes[i].code] == nodes[i]
    ensures forall c | c in ByCode(nodes) :: HasCode(nodes, c) && ByCode(nodes)[c].code == c
  {
    if nodes != [] {
      var n := |nodes| - 1;
      ByCodeIs(nodes[..n]);
      forall c | c in ByCode(nodes) ensures HasCode(nodes, c) {
        if c == nodes[n].code {
        } else {
          var j :| 0 <= j < n && nodes[..n][j].code == c;
          assert nodes[j].code == c;
        }
      }
    }
  }

  lemma OnceAppend(codes: seq<string>, x: string)
    requires Once(codes) && x !in codes
    ensures Once(codes + [x])
  {
  }

  lemma {:induction false} ChildCodesAre(nodes: seq<RegionNode>, c: string)
    requires CodesValid(nodes)
    ensures Once(ChildCodes(nodes, c))
    ensures forall x :: x in ChildCodes(nodes, c) <==> exists j :: 0 <= j < |nodes| && nodes[j].code == x && nodes[j].level != 1 && nodes[j].parentCode == Some(c)
  {
    if nodes != [] {
      var n := |nodes| - 1;
      ChildCodesAre(nodes[..n], c);
      forall x | x in ChildCodes(nodes[..n], c) ensures x != nodes[n].code {
        var j :| 0 <= j < n && nodes[..n][j].code == x;
        assert nodes[j].code == x;
      }
      OnceAppend(ChildCodes(nodes[..n], c), nodes[n].code);
      assert ChildCodes(nodes[..n], c) + [] == ChildCodes(nodes[..n], c);
      forall x ensures x in ChildCodes(nodes, c) <==> exists j :: 0 <= j < |nodes| && nodes[j].code == x && nodes[j].level != 1 && nodes[j].parentCode == Some(c) {
        if j :| 0 <= j < |nodes| && nodes[j].code == x && nodes[j].level != 1 && nodes[j].parentCode == Some(c) {
          if j < n { assert nodes[..n][j] == nodes[j]; }
        }
      }
    }
  }

  lemma {:induction false} RootCodesAre(nodes: seq<RegionNode>)
    requires CodesValid(nodes)
    ensures Once(RootCodes(nodes))
    ensures forall x :: x in RootCodes(nodes) <==> exists j :: 0 <= j < |nodes| && nodes[j].code == x && nodes[j].level == 1
  {
    if nodes != [] {
      var n := |nodes| - 1;
      RootCodesAre(nodes[..n]);
      forall x | x in RootCodes(nodes[..n]) ensures x != nodes[n].code {
        var j :| 0 <= j < n && nodes[..n][j].code == x;
        assert nodes[j].code == x;
      }
      OnceAppend(RootCodes(nodes[..n]), nodes[n].code);
      assert RootCodes(nodes[..n]) + [] == RootCodes(nodes[..n]);
      forall x ensures x in RootCodes(nodes) <==> exists j :: 0 <= j < |nodes| && nodes[j].code == x && nodes[j].level == 1 {
        if j :| 0 <= j < |nodes| && nodes[j].code == x && nodes[j].level == 1 {
          if j < n { assert nodes[..n][j] == nodes[j]; }
        }
      }
    }
  }

  predicate AllValid(nodes: seq<RegionNode>) { CodesValid(nodes) && forall i | 0 <= i < |nodes| :: NodeValid(nodes, nodes[i]) }

  lemma ChildIsLinked(nodes: seq<RegionNode>, c: string, x: string)
    requires AllValid(nodes) && c in ByCode(nodes) && x in ChildCodes(nodes, c)
    ensures Child(Links(nodes), c, x)
  {
    ByCodeIs(nodes);
    ChildCodesAre(nodes, c);
    var j :| 0 <= j < |nodes| && nodes[j].code == x && nodes[j].level != 1 && nodes[j].parentCode == Some(c);
    assert NodeValid(nodes, nodes[j]);
    var p :| 0 <= p < |nodes| && IsParent(nodes, p, nodes[j]);
  }

  lemma ParentIsLinked(nodes: seq<RegionNode>, x: string)
    requires AllValid(nodes) && x in ByCode(nodes) && ByCode(nodes)[x].level != 1
    ensures ByCode(nodes)[x].parentCode.Some? && ByCode(nodes)[x].parentCode.value in ByCode(nodes)
    ensures x in ChildCodes(nodes, ByCode(nodes)[x].parentCode.value)
  {
    ByCodeIs(nodes);
    var j :| 0 <= j < |nodes| && nodes[j].code == x;
    assert NodeValid(nodes, nodes[j]);
    var p :| 0 <= p < |nodes| && IsParent(nodes, p, nodes[j]);
    ChildCodesAre(nodes, nodes[p].code);
  }

  lemma ValidIsLinked(nodes: seq<RegionNode>)
    requires AllValid(nodes)
    ensures Linked(Links(nodes)) && Roots(Links(nodes), RootCodes(nodes))
    ensures forall c | c in ByCode(nodes) && ByCode(nodes)[c].level == 1 :: c in RootCodes(nodes)
  {
    var ix := Links(nodes);
    ByCodeIs(nodes);
    RootCodesAre(nodes);
    forall c | c in ix.byCode ensures Once(ix.children[c]) { ChildCodesAre(nodes, c); }
    forall c, k | c in ix.byCode && 0 <= k < |ix.children[c]| ensures Child(ix, c, ix.children[c][k]) { ChildIsLinked(nodes, c, ix.children[c][k]); }
    forall x | x in ix.byCode && ix.byCode[x].level != 1
      ensures ix.byCode[x].parentCode.Some? && Child(ix, ix.byCode[x].parentCode.value, x) && x in ix.children[ix.byCode[x].parentCode.value]
    {
      ParentIsLinked(nodes, x);
      ChildIsLinked(nodes, ix.byCode[x].parentCode.value, x);
    }
    forall k | 0 <= k < |RootCodes(nodes)| ensures RootCodes(nodes)[k] in ix.byCode && ix.byCode[RootCodes(nodes)[k]].level == 1 {
      assert RootCodes(nodes)[k] in RootCodes(nodes);
      var j :| 0 <= j < |nodes| && nodes[j].code == RootCodes(nodes)[k] && nodes[j].level == 1;
    }
    forall c | c in ix.byCode && ix.byCode[c].level == 1 ensures c in RootCodes(nodes) {
      var j :| 0 <= j < |nodes| && nodes[j].code == c;
    }
  }

  // ----- what the divisions hold, told from the snapshot alone -----

  predicate HasChild(nodes: seq<RegionNode>, code: string) { exists j :: 0 <= j < |nodes| && nodes[j].level != 1 && nodes[j].parentCode == Some(code) }

  /** A node of levels 1 to 4 with its name and its parent; of the first level only those that have a child. */
  predicate IsListed(nodes: seq<RegionNode>, e: Entry) {
    exists i :: 0 <= i < |nodes| && ListedAt(nodes, e, i)
  }

  lemma HasChildIff(nodes: seq<RegionNode>, c: string)
    requires CodesValid(nodes)
    ensures HasChild(nodes, c) <==> ChildCodes(nodes, c) != []
  {
    ChildCodesAre(nodes, c);
    if HasChild(nodes, c) {
      var j :| 0 <= j < |nodes| && nodes[j].level != 1 && nodes[j].parentCode == Some(c);
      assert nodes[j].code in ChildCodes(nodes, c);
    }
    if ChildCodes(nodes, c) != [] { assert ChildCodes(nodes, c)[0] in ChildCodes(nodes, c); }
  }

  predicate ListedAt(nodes: seq<RegionNode>, e: Entry, i: nat)
    requires i < |nodes|
  {
    && nodes[i].code == e.code && nodes[i].name == e.name && 1 <= nodes[i].level <= 4
    && e.parent == (if nodes[i].level == 1 then None else nodes[i].parentCode)
    && (nodes[i].level == 1 ==> HasChild(nodes, e.code))
  }

  lemma ExpectedAt(nodes: seq<RegionNode>, e: Entry, i: nat)
    requires AllValid(nodes) && i < |nodes| && nodes[i].code == e.code
    ensures Expected(Links(nodes), e) <==> ListedAt(nodes, e, i)
  {
    NodeAt(nodes, i);
    HasChildIff(nodes, e.code);
  }

  lemma NodeAt(nodes: seq<RegionNode>, i: nat)
    requires CodesValid(nodes) && i < |nodes|
    ensures nodes[i].code in ByCode(nodes) && ByCode(nodes)[nodes[i].code] == nodes[i]
  {
    ByCodeIs(nodes);
  }

  lemma ListedIff(nodes: seq<RegionNode>, e: Entry)
    requires AllValid(nodes)
    ensures Expected(Links(nodes), e) <==> IsListed(nodes, e)
  {
    if Expected(Links(nodes), e) {
      KnownCode(nodes, e.code);
      var i :| 0 <= i < |nodes| && nodes[i].code == e.code;
      ExpectedAt(nodes, e, i);
    }
    if i :| 0 <= i < |nodes| && ListedAt(nodes, e, i) { ExpectedAt(nodes, e, i); }
  }

  lemma KnownCode(nodes: seq<RegionNode>, c: string)
    requires CodesValid(nodes) && c in ByCode(nodes)
    ensures HasCode(nodes, c)
  {
    ByCodeIs(nodes);
  }

  /** The first node is listed before the second. */
  predicate Precedes(nodes: seq<RegionNode>, a: string, b: string) {
    exists i, j :: 0 <= i < j < |nodes| && nodes[i].code == a && nodes[j].code == b
  }

  /** Siblings everywhere stand in the order of the snapshot. */
  predicate InSnapshotOrder(nodes: seq<RegionNode>, ts: seq<Tree>)
    decreases ts
  {
    ts == [] || ((forall k | 0 < k < |ts| :: Precedes(nodes, ts[0].code, ts[k].code))
                 && InSnapshotOrder(nodes, ts[0].children) && InSnapshotOrder(nodes, ts[1..]))
  }

  predicate CodesInOrder(nodes: seq<RegionNode>, codes: seq<string>) { forall k, l | 0 <= k < l < |codes| :: Precedes(nodes, codes[k], codes[l]) }

  lemma PrecedesMore(nodes: seq<RegionNode>, n: RegionNode, a: string, b: string)
    requires Precedes(nodes, a, b)
    ensures Precedes(nodes + [n], a, b)
  {
    var i, j :| 0 <= i < j < |nodes| && nodes[i].code == a && nodes[j].code == b;
    assert (nodes + [n])[i] == nodes[i] && (nodes + [n])[j] == nodes[j];
  }

  lemma LastIsPreceded(nodes: seq<RegionNode>, a: string)
    requires nodes != [] && HasCode(nodes[..|nodes| - 1], a)
    ensures Precedes(nodes, a, nodes[|nodes| - 1].code)
  {
    var i :| 0 <= i < |nodes| - 1 && nodes[..|nodes| - 1][i].code == a;
    assert nodes[i].code == a;
  }

  lemma OneMoreInOrder(nodes: seq<RegionNode>, codes: seq<string>)
    requires nodes != [] && CodesInOrder(nodes[..|nodes| - 1], codes) && forall c | c in codes :: HasCode(nodes[..|nodes| - 1], c)
    ensures CodesInOrder(nodes, codes) && CodesInOrder(nodes, codes + [nodes[|nodes| - 1].code])
  {
    var less, last := nodes[..|nodes| - 1], nodes[|nodes| - 1];
    assert nodes == less + [last];
    forall k, l | 0 <= k < l < |codes| ensures Precedes(nodes, codes[k], codes[l]) { PrecedesMore(less, last, codes[k], codes[l]); }
    forall k | 0 <= k < |codes| ensures Precedes(nodes, codes[k], last.code) { assert codes[k] in codes; LastIsPreceded(nodes, codes[k]); }
  }

  lemma {:induction false} ChildCodesInOrder(nodes: seq<RegionNode>, c: string)
    requires CodesValid(nodes)
    ensures CodesInOrder(nodes, ChildCodes(nodes, c)) && forall x | x in ChildCodes(nodes, c) :: HasCode(nodes, x)
  {
    ChildCodesAre(nodes, c);
    if nodes != [] {
      ChildCodesInOrder(nodes[..|nodes| - 1], c);
      OneMoreInOrder(nodes, ChildCodes(nodes[..|nodes| - 1], c));
      assert ChildCodes(nodes[..|nodes| - 1], c) + [] == ChildCodes(nodes[..|nodes| - 1], c);
    }
  }

  lemma {:induction false} RootCodesInOrder(nodes: seq<RegionNode>)
    requires CodesValid(nodes)
    ensures CodesInOrder(nodes, RootCodes(nodes)) && forall x | x in RootCodes(nodes) :: HasCode(nodes, x)
  {
    RootCodesAre(nodes);
    if nodes != [] {
      RootCodesInOrder(nodes[..|nodes| - 1]);
      OneMoreInOrder(nodes, RootCodes(nodes[..|nodes| - 1]));
      assert RootCodes(nodes[..|nodes| - 1]) + [] == RootCodes(nodes[..|nodes| - 1]);
    }
  }

  /** The trees of some codes in order are in order, and have codes of theirs. */
  lemma {:induction false} TreesInOrder(nodes: seq<RegionNode>, c: string, codes: seq<string>)
    requires AllValid(nodes) && Linked(Links(nodes)) && c in ByCode(nodes) && CodesInOrder(nodes, codes)
    requires forall k | 0 <= k < |codes| :: Child(Links(nodes), c, codes[k])
    ensures InSnapshotOrder(nodes, ToTrees(Links(nodes), c, codes))
    ensures forall k | 0 <= k < |ToTrees(Links(nodes), c, codes)| :: ToTrees(Links(nodes), c, codes)[k].code in codes
    decreases Height(Links(nodes).byCode[c].level), 0, |codes|
  {
    if codes != [] {
      var ix, rest := Links(nodes), ToTrees(Links(nodes), c, codes[1..]);
      TreesInOrder(nodes, c, codes[1..]);
      assert Child(ix, c, codes[0]);
      if Indexed(ix, codes[0]) {
        TreeInOrder(nodes, codes[0]);
        HeadInOrder(nodes, ToTree(ix, codes[0]), rest, codes);
      } else {
        assert [] + rest == rest;
      }
    }
  }

  lemma HeadInOrder(nodes: seq<RegionNode>, t: Tree, rest: seq<Tree>, codes: seq<string>)
    requires codes != [] && t.code == codes[0] && CodesInOrder(nodes, codes) && InSnapshotOrder(nodes, rest) && InSnapshotOrder(nodes, t.children)
    requires forall k | 0 <= k < |rest| :: rest[k].code in codes[1..]
    ensures InSnapshotOrder(nodes, [t] + rest) && forall k | 0 <= k < |[t] + rest| :: ([t] + rest)[k].code in codes
  {
    var all := [t] + rest;
    assert all[1..] == rest;
    forall k | 0 < k < |all| ensures Precedes(nodes, t.code, all[k].code) && all[k].code in codes {
      assert all[k] == rest[k - 1];
      var l :| 0 <= l < |codes[1..]| && codes[1..][l] == rest[k - 1].code;
      assert codes[l + 1] == codes[1..][l];
    }
  }

  lemma {:induction false} TreeInOrder(nodes: seq<RegionNode>, c: string)
    requires AllValid(nodes) && Linked(Links(nodes)) && c in ByCode(nodes)
    ensures InSnapshotOrder(nodes, ToTree(Links(nodes), c).children)
    decreases Height(Links(nodes).byCode[c].level), 1, 0
  {
    ChildCodesInOrder(nodes, c);
    TreesInOrder(nodes, c, Links(nodes).children[c]);
  }

  lemma {:induction false} RootTreesInOrder(nodes: seq<RegionNode>, roots: seq<string>)
    requires AllValid(nodes) && Linked(Links(nodes)) && CodesInOrder(nodes, roots) && forall k | 0 <= k < |roots| :: roots[k] in ByCode(nodes)
    ensures InSnapshotOrder(nodes, RootTrees(Links(nodes), roots))
    ensures forall k | 0 <= k < |RootTrees(Links(nodes), roots)| :: RootTrees(Links(nodes), roots)[k].code in roots
  {
    if roots != [] {
      var ix, rest := Links(nodes), RootTrees(Links(nodes), roots[1..]);
      RootTreesInOrder(nodes, roots[1..]);
      if ix.children[roots[0]] != [] {
        TreeInOrder(nodes, roots[0]);
        HeadInOrder(nodes, ToTree(ix, roots[0]), rest, roots);
      } else {
        assert [] + rest == rest;
      }
    }
  }

  /** The divisions are the listed nodes, each once, and siblings stand in the order of the snapshot. */
  ghost predicate DividesAsPromised(nodes: seq<RegionNode>, divisions: seq<Tree>) {
    && (forall e :: e in FlattenAll(divisions, None) <==> IsListed(nodes, e))
    && CodesOnce(FlattenAll(divisions, None)) && InSnapshotOrder(nodes, divisions)
  }

  lemma DivisionsAsPromised(nodes: seq<RegionNode>)
    requires AllValid(nodes) && Linked(Links(nodes)) && Roots(Links(nodes), RootCodes(nodes))
    requires forall c | c in ByCode(nodes) && ByCode(nodes)[c].level == 1 :: c in RootCodes(nodes)
    ensures DividesAsPromised(nodes, RootTrees(Links(nodes), RootCodes(nodes)))
  {
    var ix, roots := Links(nodes), RootCodes(nodes);
    forall e ensures e in FlattenAll(RootTrees(ix, roots), None) <==> IsListed(nodes, e) {
      ForestConserves(ix, roots, e);
      ListedIff(nodes, e);
    }
    DivisionsOnce(ix, roots);
    RootCodesInOrder(nodes);
    RootTreesInOrder(nodes, roots);
  }

  method IndexCodes(nodes: seq<RegionNode>) returns (ok: bool, byCode: map<string, RegionNode>)
    ensures ok <==> CodesValid(nodes)
    ensures ok ==> byCode == ByCode(nodes)
  {
    byCode := map[];
    for i := 0 to |nodes|
      invariant CodesValid(nodes[..i]) && byCode == ByCode(nodes[..i])
    {
      ByCodeIs(nodes[..i]);
      if nodes[i].code == "" { return false, byCode; }
      if nodes[i].code in byCode {
        var j :| 0 <= j < i && nodes[..i][j].code == nodes[i].code;
        assert nodes[j].code == nodes[i].code;
        return false, byCode;
      }
      CodesExtend(nodes, i);
      byCode := byCode[nodes[i].code := nodes[i]];
    }
    assert nodes[..|nodes|] == nodes;
    ok := true;
  }

  lemma CodesExtend(nodes: seq<RegionNode>, i: nat)
    requires i < |nodes| && CodesValid(nodes[..i]) && nodes[i].code != "" && nodes[i].code !in ByCode(nodes[..i])
    ensures CodesValid(nodes[..i + 1]) && ByCode(nodes[..i + 1]) == ByCode(nodes[..i])[nodes[i].code := nodes[i]]
  {
    ByCodeIs(nodes[..i]);
    assert nodes[..i + 1][..i] == nodes[..i];
    forall j | 0 <= j < i ensures nodes[j].code != nodes[i].code { assert nodes[..i][j] == nodes[j]; }
  }

  /** Roots and child lists after the first i nodes. */
  predicate LinkedUpTo(nodes: seq<RegionNode>, i: nat, byCode: map<string, RegionNode>, roots: seq<string>, children: map<string, seq<string>>)
    requires i <= |nodes|
  {
    && roots == RootCodes(nodes[..i]) && (forall c | c in byCode :: c in children && children[c] == ChildCodes(nodes[..i], c))
    && forall c | c in children :: c in byCode
  }

  method LinkNodes(nodes: seq<RegionNode>, byCode: map<string, RegionNode>)
    returns (ok: bool, roots: seq<string>, children: map<string, seq<string>>)
    requires CodesValid(nodes) && byCode == ByCode(nodes)
    ensures ok <==> AllValid(nodes)
    ensures ok ==> roots == RootCodes(nodes) && children == Links(nodes).children
  {
    roots, children := [], map c | c in byCode :: [];
    for i := 0 to |nodes|
      invariant (forall j | 0 <= j < i :: NodeValid(nodes, nodes[j])) && LinkedUpTo(nodes, i, byCode, roots, children)
    {
      var valid := CheckNode(nodes, byCode, nodes[i]);
      if !valid { return false, roots, children; }
      roots, children := LinkOne(nodes, i, byCode, roots, children, nodes[i]);
    }
    assert nodes[..|nodes|] == nodes;
    ok := true;
  }

  method LinkOne(ghost nodes: seq<RegionNode>, i: nat, ghost byCode: map<string, RegionNode>, roots: seq<string>, children: map<string, seq<string>>, node: RegionNode)
    returns (roots': seq<string>, children': map<string, seq<string>>)
    requires i < |nodes| && node == nodes[i] && LinkedUpTo(nodes, i, byCode, roots, children)
    requires node.level != 1 ==> node.parentCode.Some? && node.parentCode.value in byCode
    ensures LinkedUpTo(nodes, i + 1, byCode, roots', children')
  {
    assert nodes[..i + 1][..i] == nodes[..i];
    roots', children' := roots, children;
    if node.level == 1 {
      roots' := roots + [node.code];
    } else {
      children' := children[node.parentCode.value := children[node.parentCode.value] + [node.code]];
    }
  }

  method CheckNode(nodes: seq<RegionNode>, byCode: map<string, RegionNode>, node: RegionNode) returns (ok: bool)
    requires CodesValid(nodes) && byCode == ByCode(nodes)
    ensures ok <==> NodeValid(nodes, node)
    ensures ok && node.level != 1 ==> node.parentCode.Some? && node.parentCode.value in byCode
  {
    ByCodeIs(nodes);
    if node.level == 1 {
      ok := !(node.parentCode.Some? && node.parentCode.value in byCode);
      return;
    }
    if node.parentCode.None? || node.parentCode.value !in byCode { return false; }
    var parent := byCode[node.parentCode.value];
    ok := parent.level < node.level;
    var j :| 0 <= j < |nodes| && nodes[j].code == node.parentCode.value;
    if ok { assert IsParent(nodes, j, node); }
  }

  /** Either the snapshot is refused, or the divisions are exactly its nodes of levels 1 to 4, childless
      roots aside, each once and under its own parent. */
  method BuildRegionIndex(nodes: seq<RegionNode>) returns (r: Option<RegionIndex>)
    ensures r.Some? <==> ValidSnapshot(nodes)
    ensures r.Some? ==> r.value.index == Links(nodes) && Linked(r.value.index) && Roots(r.value.index, RootCodes(nodes))
    ensures r.Some? ==> Climbs(r.value.index) && "" !in r.value.index.byCode
    ensures r.Some? ==> r.value.divisions == RootTrees(r.value.index, RootCodes(nodes))
    ensures r.Some? ==> CodesOnce(FlattenAll(r.value.divisions, None))
    ensures r.Some? ==> forall e :: e in FlattenAll(r.value.divisions, None) <==> Expected(r.value.index, e)
    ensures r.Some? ==> DividesAsPromised(nodes, r.value.divisions)
  {
    if nodes == [] { return None; }
    var coded, byCode := IndexCodes(nodes);
    if !coded { return None; }
    var linked, roots, children := LinkNodes(nodes, byCode);
    if !linked { return None; }
    var ix := Index(byCode, children);
    ValidIsLinked(nodes);
    ValidClimbs(nodes);
    var divisions := RootTrees(ix, roots);
    SomeDivision(nodes);
    if divisions == [] { return None; }
    DivisionsOnce(ix, roots);
    forall e ensures e in FlattenAll(divisions, None) <==> Expected(ix, e) { ForestConserves(ix, roots, e); }
    DivisionsAsPromised(nodes);
    r := Some(RegionIndex(ix, divisions));
  }

  lemma {:induction false} SomeTree(ix: Index, roots: seq<string>)
    requires Linked(ix) && forall k | 0 <= k < |roots| :: roots[k] in ix.byCode
    ensures RootTrees(ix, roots) != [] <==> exists k :: 0 <= k < |roots| && ix.children[roots[k]] != []
  {
    if roots != [] {
      SomeTree(ix, roots[1..]);
      if k :| 0 <= k < |roots| && ix.children[roots[k]] != [] {
        if k > 0 { assert roots[1..][k - 1] == roots[k]; }
      }
      if k :| 0 <= k < |roots| - 1 && ix.children[roots[1..][k]] != [] { assert roots[1..][k] == roots[k + 1]; }
    }
  }

  lemma SomeDivision(nodes: seq<RegionNode>)
    requires AllValid(nodes) && Linked(Links(nodes)) && Roots(Links(nodes), RootCodes(nodes))
    ensures RootTrees(Links(nodes), RootCodes(nodes)) != [] <==> ValidSnapshot(nodes)
  {
    var ix, roots := Links(nodes), RootCodes(nodes);
    SomeTree(ix, roots);
    ByCodeIs(nodes);
    RootCodesAre(nodes);
    if k :| 0 <= k < |roots| && ix.children[roots[k]] != [] { RootHasChild(nodes, k); }
    if i, j :| 0 <= i < |nodes| && 0 <= j < |nodes| && RootWithChild(nodes, i, j) {
      ChildCodesAre(nodes, nodes[i].code);
      assert nodes[i].code in roots && nodes[j].code in ChildCodes(nodes, nodes[i].code);
      var k :| 0 <= k < |roots| && roots[k] == nodes[i].code;
      assert ix.children[roots[k]] != [];
    }
  }

  lemma RootHasChild(nodes: seq<RegionNode>, k: nat)
    requires AllValid(nodes) && k < |RootCodes(nodes)| && ChildCodes(nodes, RootCodes(nodes)[k]) != []
    ensures exists i, j :: 0 <= i < |nodes| && 0 <= j < |nodes| && RootWithChild(nodes, i, j)
  {
    var root := RootCodes(nodes)[k];
    var child := ChildCodes(nodes, root)[0];
    RootCodesAre(nodes);
    ChildCodesAre(nodes, root);
    assert root in RootCodes(nodes) && child in ChildCodes(nodes, root);
    var i :| 0 <= i < |nodes| && nodes[i].code == root && nodes[i].level == 1;
    var j :| 0 <= j < |nodes| && nodes[j].code == child && nodes[j].level != 1 && nodes[j].parentCode == Some(root);
    assert RootWithChild(nodes, i, j);
  }

  // ----- the parent walk -----

  function Above(ix: Index, x: string): Option<string> { if x in ix.byCode then ix.byCode[x].parentCode else None }

  /** Where the walk is: it may step once off a root whose parent is not in the snapshot. */
  function Rank(ix: Index, x: string): nat { if x in ix.byCode then ix.byCode[x].level + 1 else 0 }

  predicate Climbs(ix: Index) { forall x | x in ix.byCode :: ix.byCode[x].parentCode.Some? ==> Rank(ix, ix.byCode[x].parentCode.value) < Rank(ix, x) }

  /** The codes the walk meets. */
  function Walk(ix: Index, x: Option<string>): seq<string>
    requires Climbs(ix)
    decreases if x.Some? then Rank(ix, x.value) + 1 else 0
  {
    if x.None? || x.value == "" then [] else [x.value] + Walk(ix, Above(ix, x.value))
  }

  lemma ValidClimbs(nodes: seq<RegionNode>)
    requires AllValid(nodes)
    ensures Climbs(Links(nodes)) && "" !in Links(nodes).byCode
  {
    var ix := Links(nodes);
    ValidIsLinked(nodes);
    ByCodeIs(nodes);
    forall x | x in ix.byCode && ix.byCode[x].parentCode.Some? ensures Rank(ix, ix.byCode[x].parentCode.value) < Rank(ix, x) {
      if ix.byCode[x].level == 1 {
        var j :| 0 <= j < |nodes| && nodes[j].code == x;
        assert NodeValid(nodes, nodes[j]);
      } else {
        assert Child(ix, ix.byCode[x].parentCode.value, x);
      }
    }
  }

  method IsAncestor(ix: Index, ancestors: seq<string>, code: string) returns (r: bool)
    requires Climbs(ix)
    ensures r <==> exists a :: a in ancestors && a in Walk(ix, Above(ix, code))
  {
    var cur := Above(ix, code);
    while cur.Some? && cur.value != ""
      invariant (exists a :: a in ancestors && a in Walk(ix, Above(ix, code))) <==> exists a :: a in ancestors && a in Walk(ix, cur)
      decreases if cur.Some? then Rank(ix, cur.value) + 1 else 0
    {
      if cur.value in ancestors {
        assert cur.value in Walk(ix, cur);
        return true;
      }
      cur := Above(ix, cur.value);
    }
    r := false;
  }

  /** In a valid index the walk meets exactly the nodes above, besides a root's dangling parent code. */
  lemma {:induction false} WalkMeetsAncestors(ix: Index, x: string, a: string)
    requires Linked(ix) && Climbs(ix) && "" !in ix.byCode && x in ix.byCode && a in ix.byCode
    ensures a in Walk(ix, Above(ix, x)) <==> a != x && Under(ix, a, x)
    decreases ix.byCode[x].level
  {
    if ix.byCode[x].level != 1 {
      var p := ix.byCode[x].parentCode.value;
      WalkMeetsAncestors(ix, p, a);
      if a == x && Under(ix, a, p) { UnderIsBelow(ix, a, p); }
    }
  }
}
