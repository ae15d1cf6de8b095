/** A save and a patch that fail and yet leave another document behind. */
module SkuFailedCommands {
  import opened Basics
  import opened SkuCore
  import opened SkuAmount
  import opened SkuDocument
  import opened SkuSharedIds
  import SkuCatalogue

  // ----- a save that asks for a new combination, twice -----

  const COLOR_KNOWN := DimensionInput(Some("a"), None, "colour", [ValueInput(Some("x"), None, "red")])
  const SIZE_KNOWN := DimensionInput(Some("b"), None, "size", [ValueInput(Some("x"), None, "small"), ValueInput(Some("y"), None, "large")])
  const SMALL := [PairInput(Some("a"), None, Some("x"), None), PairInput(Some("b"), None, Some("x"), None)]
  const TWICE := Save("twice", "S", None, [COLOR_KNOWN, SIZE_KNOWN], [SMALL, SMALL], {})

  const SMALL_PAIRS := [Pair("a", "x"), Pair("b", "x")]
  const SMALL_SKU := Sku(1, "S01", SMALL_PAIRS, SMALL_PAIRS, NEW_CONFIG, 1, false)

  function Burnt(): Document { Stored().(nextSequence := 2, inventories := map[0 := Inventory(0, 1), 1 := Inventory(0, 1)]) }

  lemma SmallKey()
    ensures FormatSkuCode("S", 1) == Ok("S01") && CombinationKey(SMALL_PAIRS) == SMALL_PAIRS && SMALL_PAIRS != BOTH
  {
    assert Digit(0) == '0' && Digit(1) == '1' && "S" + ['0', '1'] == "S01";
    assert SMALL_PAIRS[1..] == [SMALL_PAIRS[1]] && [SMALL_PAIRS[1]][1..] == [];
    assert CombinationKey([]) == [] && CombinationKey([SMALL_PAIRS[1]]) == [SMALL_PAIRS[1]];
    assert SMALL_PAIRS[1] != BOTH[1];
  }

  lemma KnownDimensions()
    ensures FindDimension([COLOR, SIZE], "a") == Some(COLOR) && FindDimension([COLOR, SIZE], "b") == Some(SIZE)
    ensures HasValue(COLOR.values, "x") && HasValue(SIZE.values, "x") && HasValue(SIZE.values, "y")
  {
    assert [COLOR, SIZE][1..] == [SIZE];
    assert COLOR.values[0].id == "x" && SIZE.values[0].id == "x" && SIZE.values[1].id == "y";
  }

  lemma SmallResolves()
    ensures Resolve(SMALL, map[], [COLOR, SIZE]) == Ok(SMALL_PAIRS)
  {
    KnownDimensions();
    assert PairsOf(SMALL, map[]) == SMALL_PAIRS;
    assert Covers(SMALL_PAIRS, [COLOR, SIZE]);
  }

  lemma TwiceMappings()
    ensures Mappings(Stored(), TWICE.dimensions, FRESH) == map[]
  {
    var d := Stored();
    assert TWICE.dimensions[..1] == [COLOR_KNOWN] && [COLOR_KNOWN][..0] == [];
    assert COLOR_KNOWN.values[..0] == [] && ValueMappings(map[], [], []) == map[];
    assert ValueMappings(map[], COLOR_KNOWN.values, []) == map[];
    assert Mappings(d, [], FRESH) == map[] && Mappings(d, [COLOR_KNOWN], FRESH) == map[];
    assert SIZE_KNOWN.values[..1] == [SIZE_KNOWN.values[0]] && [SIZE_KNOWN.values[0]][..0] == [];
    assert ValueMappings(map[], [SIZE_KNOWN.values[0]], []) == map[] && ValueMappings(map[], SIZE_KNOWN.values, []) == map[];
  }

  lemma NothingLeft(values: seq<SpecValue>)
    requires values == COLOR.values || values == SIZE.values
    ensures LeftValues(values, values) == []
  {
    KnownDimensions();
    assert HasValue(values, values[0].id);
    assert |values| == 2 ==> HasValue(values, values[1].id) && values[1..] == [values[1]] && LeftValues([values[1]], values) == [];
    assert |values| == 1 ==> values[1..] == [];
  }

  lemma TwiceDimensions()
    ensures NewDimensions(Stored(), TWICE, FRESH) == [COLOR, SIZE]
  {
    var d := Stored();
    KnownDimensions();
    assert NewValues(COLOR_KNOWN.values, []) == COLOR.values && NewValues(SIZE_KNOWN.values, []) == SIZE.values;
    NothingLeft(COLOR.values);
    NothingLeft(SIZE.values);
    assert COLOR.values + [] == COLOR.values && SIZE.values + [] == SIZE.values;
    assert BuiltDimension(d, COLOR_KNOWN, "a", []) == COLOR && BuiltDimension(d, SIZE_KNOWN, "b", []) == SIZE;
    assert KeptDimensions(d, TWICE, FRESH) == [COLOR, SIZE];
    NoDimensionLeft();
  }

  lemma NoDimensionLeft()
    ensures [COLOR, SIZE] + LeftDimensions([COLOR, SIZE], [COLOR, SIZE]) == [COLOR, SIZE]
  {
    KnownDimensions();
    assert [COLOR, SIZE][1..] == [SIZE] && [SIZE][1..] == [];
    assert LeftDimensions([SIZE], [COLOR, SIZE]) == [];
  }

  lemma TwiceAllocates()
    ensures Allocate(Stored(), [SMALL, SMALL], map[], [COLOR, SIZE], {}) == Allocation(Burnt(), [SMALL_SKU], Some(CombinationConflict))
  {
    SmallResolves();
    SmallKey();
    assert [SMALL, SMALL][..1] == [SMALL] && [SMALL][..0] == [];
    var none := Allocation(Stored(), [], None);
    assert Allocate(Stored(), [], map[], [COLOR, SIZE], {}) == none;
    assert Stored().skus[0].key == BOTH && !HasKey(Stored().skus, SMALL_PAIRS) && !HasKey([], SMALL_PAIRS);
    assert [] + [SMALL_SKU] == [SMALL_SKU];
    assert Issue(none, SMALL_PAIRS) == Allocation(Burnt(), [SMALL_SKU], None);
    assert Allocate(Stored(), [SMALL], map[], [COLOR, SIZE], {}) == Issue(none, SMALL_PAIRS);
    assert [SMALL_SKU][0].key == SMALL_PAIRS && HasKey([SMALL_SKU], SMALL_PAIRS);
  }

  lemma TwiceIsChecked()
    ensures IdsKnown(Stored(), TWICE) && !Blocked(Some(Stored()), TWICE, None) && !HasReceipt(Stored().commands, "twice")
  {
    KnownDimensions();
    assert Stored().commands[0].fingerprint.commandId == "save" && "save"[0] != "twice"[0];
    assert Previous(Stored(), COLOR_KNOWN) == Some(COLOR) && Previous(Stored(), SIZE_KNOWN) == Some(SIZE);
    assert !DefaultMode(Stored()) by { assert Stored().skus[0].pairs == BOTH && BOTH != []; }
  }

  lemma TwiceFails()
    ensures SaveTx(Some(Stored()), TWICE, FRESH) == (Burnt(), Err(CombinationConflict))
  {
    TwiceIsChecked();
    TwiceMappings();
    TwiceDimensions();
    TwiceAllocates();
  }

  lemma TwiceIsWellFormed()
    ensures SkuCatalogue.WellFormed(TWICE)
  {
    assert !Space(TWICE.commandId[0]);
    var counts := SkuCatalogue.ValueCounts(TWICE.dimensions);
    assert counts == [1, 2] && counts[..1] == [1] && [1][..0] == [];
    assert Product([]) == 1 && Product([1]) == 1 && Product(counts) == 2;
    assert SkuCatalogue.DimensionNames(TWICE.dimensions) == ["colour", "size"] && "colour"[0] != "size"[0];
    assert SkuCatalogue.ValueNames(COLOR_KNOWN.values) == ["red"];
    assert SkuCatalogue.ValueNames(SIZE_KNOWN.values) == ["small", "large"] && "small"[0] != "large"[0];
  }

  /** After an ordinary save, a save that asks for one new combination twice fails, and the sequence it took for the first is gone. */
  lemma FailedSaveBurnsASequence()
    ensures var cat := SkuCatalogue.Run(map[], [CALLS[0]]);
            var (after, r) := SkuCatalogue.Next(cat, SkuCatalogue.Call("p", TWICE, FRESH));
            && r == Err(CombinationConflict) && "p" in cat && "p" in after && cat["p"].nextSequence == 1
            && after["p"] == cat["p"].(nextSequence := 2, inventories := cat["p"].inventories[1 := Inventory(0, 1)])
  {
    AfterSave();
    TwiceOnStored();
    assert Stored().inventories[1 := Inventory(0, 1)] == Burnt().inventories;
  }

  lemma AfterSave()
    ensures SkuCatalogue.Run(map[], [CALLS[0]]) == map["p" := Stored()]
  {
    assert [CALLS[0]][..0] == [] && SkuCatalogue.Run(map[], []) == map[];
    FirstCall();
  }

  lemma TwiceOnStored()
    ensures SkuCatalogue.Next(map["p" := Stored()], SkuCatalogue.Call("p", TWICE, FRESH))
            == (map["p" := Stored()]["p" := Burnt()], Err(CombinationConflict))
  {
    TwiceIsWellFormed();
    TwiceFails();
    assert SkuCatalogue.Stored(map["p" := Stored()], "p") == Some(Stored());
    assert !SkuCatalogue.Taken(map["p" := Stored()], "p", "S");
  }

  // ----- a patch with a good retail price and a bad supply price -----

  const HALF := PatchSkus("half", None, [Patch(0, 1, Set("7"), Set("x"), Keep, None)])

  lemma Prices()
    ensures ValidateCnyAmount("7") == Ok("7.00") && BadPrice(Set("x")) && !BadPrice(Set("7"))
  {
    assert DotAt("7"[1..]) == 0 && DotAt("7") == 1 && "7"[..1] == "7" && Whole("7") == "7" && Fraction("7") == "";
    assert Padded("00") == "00" && "0" + "0" == "00" && Padded("0") == "00" && "" + "0" == "0" && Padded("") == "00";
    assert "7" + "." + "00" == "7.00";
    assert DotAt("x"[1..]) == 0 && DotAt("x") == 1 && Whole("x")[0] == 'x';
  }

  lemma HalfPatch()
    ensures PatchedSku(NEW_SKU, HALF.patches[0]) == (NEW_SKU.(config := NEW_CONFIG.(retail := Some("7.00"))), Some(ValidationFailed))
  {
    Prices();
  }

  /** The same product keeps the retail price of a patch whose supply price was refused, under the version it had before. */
  lemma FailedPatchChangesAPrice()
    ensures var cat := SkuCatalogue.Run(map[], [CALLS[0]]);
            var (after, r) := SkuCatalogue.Next(cat, SkuCatalogue.Call("p", HALF, FRESH));
            && r == Err(ValidationFailed) && "p" in cat && "p" in after && cat["p"].skus == [NEW_SKU]
            && after["p"] == cat["p"].(skus := [NEW_SKU.(config := NEW_CONFIG.(retail := Some("7.00")))])
  {
    AfterSave();
    HalfOnStored();
  }

  lemma HalfOnStored()
    ensures SkuCatalogue.Next(map["p" := Stored()], SkuCatalogue.Call("p", HALF, FRESH))
            == (map["p" := Stored()]["p" := Stored().(skus := [NEW_SKU.(config := NEW_CONFIG.(retail := Some("7.00")))])], Err(ValidationFailed))
  {
    HalfFails();
    assert SkuCatalogue.Stored(map["p" := Stored()], "p") == Some(Stored());
    assert !Space(HALF.commandId[0]);
  }

  lemma HalfFails()
    ensures PatchTx(Stored(), HALF) == (Stored().(skus := [NEW_SKU.(config := NEW_CONFIG.(retail := Some("7.00")))]), Err(ValidationFailed))
  {
    var d := Stored();
    var sku := NEW_SKU.(config := NEW_CONFIG.(retail := Some("7.00")));
    HalfPatch();
    assert d.commands[0].fingerprint.commandId == "save" && "save"[0] != "half"[0];
    assert d.skus[0].sequence == 0 && HasSequence(d.skus, 0) && FindSequence(d.skus, 0) == NEW_SKU;
    assert Replaced(d.skus, sku) == [sku] + d.skus[1..] == [sku];
    assert PatchAll(d, HALF.patches, 0) == Patching(d, [], None);
  }
}
