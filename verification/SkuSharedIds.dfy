/** Two ordinary commands after which the consumer's selector has a dead end: new dimensions that bring the same value id. */
module SkuSharedIds {
  import opened Basics
  import opened SkuCore
  import opened SkuDocument
  import opened SkuSelector
  import SkuCatalogue

  const COLOR := Dimension("a", [SpecValue("x", false)], false)
  const SIZE := Dimension("b", [SpecValue("x", false), SpecValue("y", false)], false)
  const BOTH := [Pair("a", "x"), Pair("b", "y")]

  /** Two new dimensions whose values bring the id x along, and one combination of them. */
  const COLOR_INPUT := DimensionInput(None, Some("color"), "colour", [ValueInput(Some("x"), None, "red")])
  const SIZE_INPUT := DimensionInput(None, Some("size"), "size", [ValueInput(Some("x"), None, "small"), ValueInput(Some("y"), None, "large")])
  const COMBINATION := [PairInput(None, Some("color"), Some("x"), None), PairInput(None, Some("size"), Some("y"), None)]
  const SAVE := Save("save", "S", None, [COLOR_INPUT, SIZE_INPUT], [COMBINATION], {})
  const ENABLE := PatchSkus("enable", None, [Patch(0, 1, Keep, Keep, Keep, Some(Enabled))])
  const FRESH := Env(["a", "b"], [], None)

  const MAPPINGS := map["color" := "a", "size" := "b"]
  const NEW_SKU := Sku(0, "S00", BOTH, BOTH, NEW_CONFIG, 1, false)
  const ONLY := Sku(0, "S00", BOTH, BOTH, Config(Enabled, None, None, None), 2, false)

  function SavedOutcome(): Outcome { Saved(1, SavedSkus([NEW_SKU]), MAPPINGS) }

  function Stored(): Document {
    Document("S", 1, 1, [COLOR, SIZE], [NEW_SKU], map[0 := Inventory(0, 1)], [Receipt(SAVE, SavedOutcome())])
  }

  lemma BothKey()
    ensures FormatSkuCode("S", 0) == Ok("S00") && CombinationKey(BOTH) == BOTH
  {
    assert Digit(0) == '0' && "S" + ['0', '0'] == "S00";
    assert BOTH[1..] == [BOTH[1]] && [BOTH[1]][1..] == [];
    assert CombinationKey([]) == [] && CombinationKey([BOTH[1]]) == [BOTH[1]];
  }

  lemma SaveMappings()
    ensures Mappings(CreateDocument("S"), SAVE.dimensions, FRESH) == MAPPINGS
  {
    var d := CreateDocument("S");
    assert SAVE.dimensions[..1] == [COLOR_INPUT] && [COLOR_INPUT][..0] == [];
    assert Mappings(d, [], FRESH) == map[];
    assert COLOR_INPUT.values[..0] == [];
    assert ValueMappings(map["color" := "a"], COLOR_INPUT.values, []) == map["color" := "a"];
    assert Mappings(d, [COLOR_INPUT], FRESH) == map["color" := "a"];
    assert SIZE_INPUT.values[..1] == [SIZE_INPUT.values[0]] && [SIZE_INPUT.values[0]][..0] == [];
    assert ValueMappings(MAPPINGS, [], []) == MAPPINGS;
    assert ValueMappings(MAPPINGS, [SIZE_INPUT.values[0]], []) == MAPPINGS;
    assert ValueMappings(MAPPINGS, SIZE_INPUT.values, []) == MAPPINGS;
  }

  lemma SaveDimensions()
    ensures NewDimensions(CreateDocument("S"), SAVE, FRESH) == [COLOR, SIZE]
  {
    var d := CreateDocument("S");
    assert NewValues(COLOR_INPUT.values, []) == COLOR.values;
    assert NewValues(SIZE_INPUT.values, []) == SIZE.values;
    assert COLOR.values + [] == COLOR.values && SIZE.values + [] == SIZE.values;
    assert BuiltDimension(d, COLOR_INPUT, "a", []) == COLOR && BuiltDimension(d, SIZE_INPUT, "b", []) == SIZE;
    assert KeptDimensions(d, SAVE, FRESH) == [COLOR, SIZE];
    assert [COLOR, SIZE] + [] == [COLOR, SIZE];
  }

  lemma SaveResolves()
    ensures Resolve(COMBINATION, MAPPINGS, [COLOR, SIZE]) == Ok(BOTH)
  {
    assert PairsOf(COMBINATION, MAPPINGS) == BOTH;
    assert FindDimension([COLOR, SIZE], "a") == Some(COLOR);
    assert [COLOR, SIZE][1..] == [SIZE] && FindDimension([SIZE], "b") == Some(SIZE);
    assert COLOR.values[0].id == "x" && SIZE.values[1].id == "y";
    assert Covers(BOTH, [COLOR, SIZE]);
  }

  const EMPTY := CreateDocument("S")
  const ISSUED := EMPTY.(nextSequence := 1, inventories := map[0 := Inventory(0, 1)])

  lemma SaveAllocates()
    ensures Allocate(EMPTY, SAVE.combinations, MAPPINGS, [COLOR, SIZE], {}) == Allocation(ISSUED, [NEW_SKU], None)
  {
    SaveResolves();
    BothKey();
    assert SAVE.combinations[..0] == [];
    var none := Allocation(EMPTY, [], None);
    assert Allocate(EMPTY, [], MAPPINGS, [COLOR, SIZE], {}) == none;
    assert !HasKey([], BOTH);
    assert Issue(none, BOTH) == Allocation(ISSUED, [NEW_SKU], None);
  }

  lemma SaveCommits()
    ensures Committed(Allocation(ISSUED, [NEW_SKU], None), SAVE, [COLOR, SIZE], MAPPINGS) == (Stored(), SavedOutcome())
  {
    assert [NEW_SKU] + Departed([], [NEW_SKU]) == [NEW_SKU];
    assert [] + [Receipt(SAVE, SavedOutcome())] == [Receipt(SAVE, SavedOutcome())];
  }

  lemma SaveIssues()
    ensures Rebuild(EMPTY, SAVE, FRESH) == (Stored(), Ok(SavedOutcome()))
  {
    SaveMappings();
    SaveDimensions();
    SaveAllocates();
    SaveCommits();
  }

  lemma SaveSucceeds()
    ensures SaveTx(None, SAVE, FRESH) == (Stored(), Ok(SavedOutcome()))
  {
    assert SaveTx(None, SAVE, FRESH) == Rebuild(EMPTY, SAVE, FRESH);
    SaveIssues();
  }

  lemma EnableSucceeds()
    ensures PatchTx(Stored(), ENABLE).1.Ok? && PatchTx(Stored(), ENABLE).0.dimensions == [COLOR, SIZE]
    ensures PatchTx(Stored(), ENABLE).0.skus == [ONLY]
  {
    var d := Stored();
    assert d.skus[0].sequence == 0 && HasSequence(d.skus, 0) && FindSequence(d.skus, 0) == NEW_SKU;
    assert PatchedSku(NEW_SKU, ENABLE.patches[0]) == (ONLY, None);
    assert Replaced(d.skus, ONLY) == [ONLY] + d.skus[1..] == [ONLY];
  }

  lemma SaveIsWellFormed()
    ensures SkuCatalogue.WellFormed(SAVE) && SkuCatalogue.WellFormed(ENABLE)
  {
    assert !Space(SAVE.commandId[0]) && !Space(ENABLE.commandId[0]);
    var counts := SkuCatalogue.ValueCounts(SAVE.dimensions);
    assert counts == [1, 2] && counts[..1] == [1] && [1][..0] == [];
    assert Product([]) == 1 && Product([1]) == 1 && Product(counts) == 2;
    assert SkuCatalogue.DimensionNames(SAVE.dimensions) == ["colour", "size"] && "colour"[0] != "size"[0];
    assert SkuCatalogue.ValueNames(COLOR_INPUT.values) == ["red"];
    assert SkuCatalogue.ValueNames(SIZE_INPUT.values) == ["small", "large"] && "small"[0] != "large"[0];
  }

  const CALLS := [SkuCatalogue.Call("p", SAVE, FRESH), SkuCatalogue.Call("p", ENABLE, FRESH)]

  /** The two commands store a product whose two dimensions share the value id x. */
  lemma SharedIdIsStored()
    ensures var cat := SkuCatalogue.Run(map[], CALLS);
            "p" in cat && cat["p"].dimensions == [COLOR, SIZE] && cat["p"].skus == [ONLY]
  {
    assert CALLS[..1] == [CALLS[0]] && [CALLS[0]][..0] == [] && SkuCatalogue.Run(map[], []) == map[];
    FirstCall();
    SecondCall();
  }

  lemma FirstCall()
    ensures SkuCatalogue.Next(map[], CALLS[0]).0 == map["p" := Stored()]
  {
    SaveIsWellFormed();
    SaveSucceeds();
  }

  lemma SecondCall()
    ensures var cat := SkuCatalogue.Next(map["p" := Stored()], CALLS[1]).0;
            "p" in cat && cat["p"].dimensions == [COLOR, SIZE] && cat["p"].skus == [ONLY]
  {
    SaveIsWellFormed();
    EnableSucceeds();
  }

  // ----- the dead end -----

  const OPEN_SHOP: Projections := map[0 := Projection(true, true, "unknown")]

  lemma Owners(v: string)
    ensures OwnerOf([COLOR, SIZE], v) == if v == "x" || v == "y" then Some("b") else None
  {
    assert SIZE.values[0] == SpecValue("x", false) && SIZE.values[1] == SpecValue("y", false);
    assert LiveValue(SIZE, v) <==> v == "x" || v == "y";
    assert LiveValue(COLOR, v) ==> v == "x";
    assert OwnerOf([], v) == None && [COLOR][..0] == [];
    assert OwnerOf([COLOR], v).Some? ==> v == "x";
    assert [COLOR, SIZE][..1] == [COLOR];
  }

  lemma FirstChoice(d: Document)
    requires d.dimensions == [COLOR, SIZE] && d.skus == [ONLY]
    ensures OpenChoice(d, OPEN_SHOP, [], "x")
  {
    Owners("x");
    assert Chosen([]) == {} && Overlap(BOTH, {}) == 0;
    assert d.skus[0] == ONLY && ONLY.pairs[0].value == "x";
    assert Candidate(ONLY, OPEN_SHOP, []) && HasPairValue(ONLY, "x");
    assert Reachable(d, OPEN_SHOP, [], "x");
  }

  /** In the shop these commands set up x can be chosen first; then nothing is open and no SKU is shown, although one could be bought. */
  lemma SharedIdIsADeadEnd()
    ensures var cat := SkuCatalogue.Run(map[], CALLS);
            && "p" in cat && OpenChoice(cat["p"], OPEN_SHOP, [], "x")
            && (forall v :: !OpenChoice(cat["p"], OPEN_SHOP, ["x"], v)) && SelectedSku(cat["p"], OPEN_SHOP, ["x"]) == None
  {
    SharedIdIsStored();
    var d := SkuCatalogue.Run(map[], CALLS)["p"];
    FirstChoice(d);
    NothingIsOpen(d);
  }

  lemma NothingIsOpen(d: Document)
    requires d.dimensions == [COLOR, SIZE] && d.skus == [ONLY]
    ensures (forall v :: !OpenChoice(d, OPEN_SHOP, ["x"], v)) && SelectedSku(d, OPEN_SHOP, ["x"]) == None
  {
    Owners("x");
    assert OwnerOf(d.dimensions, ["x"][0]) == Some("b") && !Unselected(d, ["x"], "b");
    forall v ensures !OpenChoice(d, OPEN_SHOP, ["x"], v) { Owners(v); }
    ChosenMore([], "x");
    assert [] + ["x"] == ["x"] && Chosen([]) == {} && Chosen(["x"]) == {"x"};
    NoneExact(d.skus, OPEN_SHOP, ["x"]);
  }
}
