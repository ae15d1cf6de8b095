/** Carrying local settings over to a new dataset version, for the regions that still mean the same. */
module AreaInherit {
  import opened Basics
  import opened RowOrder
  import opened CodeOrder
  import opened SourceAudit
  import opened AreaStore
  import opened AreaImport

  /** What an operator may set on a region: its label, its place among its siblings, whether it is offered. */
  datatype Local = Local(displayName: Option<string>, sort: int, enabled: bool)
  type Settings = map<string, Local>

  const UNTOUCHED := Local(None, 0, true)

  datatype Version = Version(id: string, status: Status, passed: bool, regions: Regions, settings: Settings)
  datatype Inheritance = Inheritance(sourceId: string, conflicts: nat)

  /** The regions form trees of at most five levels, and each has its settings. */
  predicate WellStored(v: Version) {
    && (forall c | c in v.regions :: c != "" && ParentPresent(v.regions, c) && 1 <= v.regions[c].level <= LEVELS && c in v.settings)
    && forall c | c in v.settings :: c in v.regions
  }

  /** From the root down to the code, with the source columns of every node. */
  function Path(v: Version, code: string): seq<(string, Region)>
    requires WellStored(v) && code in v.regions
    decreases v.regions[code].level
  {
    var r := v.regions[code];
    assert ParentPresent(v.regions, code);
    (if r.level == 1 then [] else Path(v, r.parent.value)) + [(code, r)]
  }

  predicate SameMeaning(source: Version, target: Version, code: string)
    requires WellStored(source) && WellStored(target) && code in source.regions
  {
    code in target.regions && Path(source, code) == Path(target, code)
  }

  function Touched(v: Version): set<string> { set c | c in v.settings && v.settings[c] != UNTOUCHED }

  function SameSet(source: Version, target: Version): set<string>
    requires WellStored(source) && WellStored(target)
  {
    set c | c in source.regions && SameMeaning(source, target, c)
  }

  /** The settings after the given codes were considered, and how many of them did not carry over. */
  function Applied(from: Settings, same: set<string>, onto: Settings, codes: seq<string>): (Settings, nat)
    requires forall c | c in same :: c in from
  {
    if codes == [] then (onto, 0) else
      var c := codes[|codes| - 1];
      var (settings, conflicts) := Applied(from, same, onto, codes[..|codes| - 1]);
      if c in same then (settings[c := from[c]], conflicts) else (settings, conflicts + 1)
  }

  predicate Usable(source: Option<Version>, sourceId: string) { source.Some? && source.value.id == sourceId && source.value.status == Ready && source.value.passed }

  function CarriedOver(source: Version, target: Version): (Settings, nat)
    requires WellStored(source) && WellStored(target)
  {
    Applied(source.settings, SameSet(source, target), target.settings, InOrder(Touched(source)))
  }

  /** The region and everything above it are the same in both versions. */
  predicate AgreesUpward(source: Version, target: Version, code: string)
    requires WellStored(source) && code in source.regions
    decreases source.regions[code].level
  {
    && code in target.regions && target.regions[code].name == source.regions[code].name && target.regions[code].level == source.regions[code].level
    && target.regions[code].kind == source.regions[code].kind && target.regions[code].parent == source.regions[code].parent
    && (assert ParentPresent(source.regions, code); source.regions[code].level == 1 || AgreesUpward(source, target, source.regions[code].parent.value))
  }

  lemma {:induction false} PathsEnd(v: Version, code: string)
    requires WellStored(v) && code in v.regions
    ensures Path(v, code) != [] && Path(v, code)[|Path(v, code)| - 1] == (code, v.regions[code])
    ensures v.regions[code].level > 1 ==> v.regions[code].parent.Some? && v.regions[code].parent.value in v.regions
                                          && Path(v, code)[..|Path(v, code)| - 1] == Path(v, v.regions[code].parent.value)
    ensures v.regions[code].level == 1 ==> |Path(v, code)| == 1
  {
    assert ParentPresent(v.regions, code);
  }

  lemma {:induction false} SameMeaningIff(source: Version, target: Version, code: string)
    requires WellStored(source) && WellStored(target) && code in source.regions
    ensures SameMeaning(source, target, code) <==> AgreesUpward(source, target, code)
    decreases source.regions[code].level
  {
    assert ParentPresent(source.regions, code);
    PathsEnd(source, code);
    if code in target.regions {
      PathsEnd(target, code);
      if source.regions[code].level > 1 { SameMeaningIff(source, target, source.regions[code].parent.value); }
      if target.regions[code] == source.regions[code] && source.regions[code].level > 1 {
        assert Path(source, code) == Path(source, source.regions[code].parent.value) + [(code, source.regions[code])];
        assert Path(target, code) == Path(target, source.regions[code].parent.value) + [(code, source.regions[code])];
      }
    }
  }

  predicate IsTouched(l: Local) { l.displayName.Some? || l.sort != 0 || !l.enabled }

  ghost function NotCarried(source: Version, target: Version): set<string>
    requires WellStored(source)
  {
    set c | c in source.regions && IsTouched(source.settings[c]) && !AgreesUpward(source, target, c)
  }

  /** A touched region of the source gives its settings to the same region of the target, if it still means the same. */
  ghost predicate InheritsAsPromised(source: Version, target: Version, after: Settings, conflicts: nat)
    requires WellStored(source) && WellStored(target)
  {
    && after.Keys == target.settings.Keys
    && (forall c | c in target.regions ::
          after[c] == if c in source.regions && IsTouched(source.settings[c]) && AgreesUpward(source, target, c) then source.settings[c] else target.settings[c])
    && conflicts == |NotCarried(source, target)|
  }

  lemma CarriedAsPromised(source: Version, target: Version)
    requires WellStored(source) && WellStored(target)
    ensures var (settings, conflicts) := CarriedOver(source, target); InheritsAsPromised(source, target, settings, conflicts)
  {
    var (settings, conflicts) := CarriedOver(source, target);
    CarriedExactly(source, target);
    forall c | c in target.regions
      ensures settings[c] == if c in source.regions && IsTouched(source.settings[c]) && AgreesUpward(source, target, c) then source.settings[c] else target.settings[c]
    {
      if c in source.regions { SameMeaningIff(source, target, c); }
    }
    forall c ensures c in settings <==> c in target.settings { CarriedAt(source, target, c); }
    LeftBehind(source, target, conflicts);
  }

  lemma Difference(part: set<string>, whole: set<string>)
    requires part <= whole
    ensures |whole - part| == |whole| - |part|
  {
    assert whole == part + (whole - part);
  }

  lemma LeftBehind(source: Version, target: Version, conflicts: nat)
    requires WellStored(source) && WellStored(target)
    requires conflicts + |Carried(SameSet(source, target), InOrder(Touched(source)))| == |Touched(source)|
    ensures conflicts == |NotCarried(source, target)|
  {
    var touched, carried := Touched(source), Carried(SameSet(source, target), InOrder(Touched(source)));
    forall c ensures c in NotCarried(source, target) <==> c in touched && c !in carried {
      if c in source.regions { SameMeaningIff(source, target, c); }
    }
    assert NotCarried(source, target) == touched - carried && carried <= touched;
    Difference(carried, touched);
  }

  class ImportTarget {
    var version: Version
    var inheritance: Option<Inheritance>

    /** One atomic transaction; a completed one is only ever reported again. */
    method InheritSettings(sourceId: string, source: Option<Version>) returns (r: Result<nat>)
      requires WellStored(version) && (source.Some? ==> WellStored(source.value))
      modifies this
      ensures WellStored(version) && version == old(version).(settings := version.settings)
      ensures r.Err? ==> version == old(version) && inheritance == old(inheritance)
      ensures r.Err? <==> old(version.status) != Importing || old(version.id) == sourceId || Blank(sourceId)
                          || (if old(inheritance).Some? then old(inheritance).value.sourceId != sourceId else !Usable(source, sourceId))
      ensures r.Ok? ==> inheritance == Some(Inheritance(sourceId, r.value))
      ensures r.Ok? && old(inheritance).Some? ==> version == old(version) && inheritance == old(inheritance)
      ensures r.Ok? && old(inheritance).None? ==>
                (version.settings, r.value) == CarriedOver(source.value, old(version))
      ensures r.Ok? && old(inheritance).None? ==> InheritsAsPromised(source.value, old(version), version.settings, r.value)
    {
      if version.status != Importing || version.id == sourceId { return Err(Conflict); }
      if Blank(sourceId) { return Err(InvalidArgument); }
      if inheritance.Some? {
        if inheritance.value.sourceId != sourceId { return Err(Conflict); }
        return Ok(inheritance.value.conflicts);
      }
      if !Usable(source, sourceId) { return Err(Conflict); }
      var settings, conflicts := Inherit(source.value, version);
      version := version.(settings := settings);
      inheritance := Some(Inheritance(sourceId, conflicts));
      r := Ok(conflicts);
    }

    static method Inherit(source: Version, target: Version) returns (settings: Settings, conflicts: nat)
      requires WellStored(source) && WellStored(target)
      ensures (settings, conflicts) == CarriedOver(source, target) && WellStored(target.(settings := settings))
      ensures InheritsAsPromised(source, target, settings, conflicts)
    {
      CarriedExactly(source, target);
      CarriedAsPromised(source, target);
      settings, conflicts := CarryOver(source, target, InOrder(Touched(source)));
    }

    /** Page by page through the touched codes of the source. */
    static method CarryOver(source: Version, target: Version, stored: seq<string>) returns (settings: Settings, conflicts: nat)
      requires WellStored(source) && WellStored(target) && Known(source.regions, stored) && AscendingCodes(stored)
      requires forall i | 0 <= i < |stored| :: stored[i] != ""
      ensures (settings, conflicts) == Applied(source.settings, SameSet(source, target), target.settings, stored)
    {
      var after, more := "", true;
      ghost var read: seq<string> := [];
      ghost var same := SameSet(source, target);
      settings, conflicts := target.settings, 0;
      ScanStarts(stored);
      while more
        invariant (settings, conflicts) == Applied(source.settings, same, target.settings, read)
        invariant if more then Scanned(stored, read, after) else read == stored
        decreases more, |stored| - |read|
      {
        var page := PageAfter(stored, after);
        settings, conflicts := CarryPage(source, target, read, page, settings, conflicts);
        ScanNext(stored, read, after);
        read := read + page;
        more := |page| >= PAGE;
        if more { after := page[|page| - 1]; }
      }
    }

    static method CarryPage(source: Version, target: Version, ghost read: seq<string>, page: seq<string>, settings: Settings, conflicts: nat)
      returns (settings': Settings, conflicts': nat)
      requires WellStored(source) && WellStored(target) && Known(source.regions, page)
      requires (settings, conflicts) == Applied(source.settings, SameSet(source, target), target.settings, read)
      ensures (settings', conflicts') == Applied(source.settings, SameSet(source, target), target.settings, read + page)
    {
      ghost var same := SameSet(source, target);
      settings', conflicts' := settings, conflicts;
      assert read + page[..0] == read;
      for i := 0 to |page|
        invariant (settings', conflicts') == Applied(source.settings, same, target.settings, read + page[..i])
      {
        assert page[i] in page;
        AppliedToPage(source.settings, same, target.settings, read, page, i);
        if SameMeaning(source, target, page[i]) {
          settings' := settings'[page[i] := source.settings[page[i]]];
        } else {
          conflicts' := conflicts' + 1;
        }
      }
      assert page[..|page|] == page;
    }
  }

  lemma AppliedToPage(from: Settings, same: set<string>, onto: Settings, read: seq<string>, page: seq<string>, i: nat)
    requires i < |page| && forall c | c in same :: c in from
    ensures Applied(from, same, onto, read + page[..i + 1]) ==
              var before, c := Applied(from, same, onto, read + page[..i]), page[i];
              if c in same then (before.0[c := from[c]], before.1) else (before.0, before.1 + 1)
  {
    assert read + page[..i] + [page[i]] == read + page[..i + 1];
  }

  /** Exactly the given codes that mean the same take over their settings. */
  lemma {:induction false} AppliedAt(from: Settings, same: set<string>, onto: Settings, codes: seq<string>, c: string)
    requires forall d | d in same :: d in from
    ensures var settings := Applied(from, same, onto, codes).0;
            && (c in settings <==> c in onto || (c in codes && c in same))
            && (c in settings ==> settings[c] == if c in codes && c in same then from[c] else onto[c])
  {
    if codes != [] {
      AppliedAt(from, same, onto, codes[..|codes| - 1], c);
      assert c in codes <==> c in codes[..|codes| - 1] || c == codes[|codes| - 1];
    }
  }

  function Carried(same: set<string>, codes: seq<string>): set<string> { set c | c in codes && c in same }

  lemma CarriedNext(same: set<string>, codes: seq<string>)
    requires codes != [] && AscendingCodes(codes)
    ensures |Carried(same, codes)| == |Carried(same, codes[..|codes| - 1])| + if codes[|codes| - 1] in same then 1 else 0
  {
    var rest, c := codes[..|codes| - 1], codes[|codes| - 1];
    assert codes == rest + [c];
    assert Carried(same, codes) == Carried(same, rest) + if c in same then {c} else {};
  }

  /** Of distinct codes, those that do not carry over count as conflicts. */
  lemma {:induction false} AppliedCounts(from: Settings, same: set<string>, onto: Settings, codes: seq<string>)
    requires (forall c | c in same :: c in from) && AscendingCodes(codes)
    ensures Applied(from, same, onto, codes).1 + |Carried(same, codes)| == |codes|
  {
    if codes != [] {
      AppliedCounts(from, same, onto, codes[..|codes| - 1]);
      CarriedNext(same, codes);
    }
  }

  predicate CarriesOver(source: Version, target: Version, c: string)
    requires WellStored(source) && WellStored(target)
  {
    c in source.regions && source.settings[c] != UNTOUCHED && SameMeaning(source, target, c)
  }

  lemma CarriedAt(source: Version, target: Version, c: string)
    requires WellStored(source) && WellStored(target)
    ensures c in CarriedOver(source, target).0 <==> c in target.settings
    ensures c in target.settings ==> CarriedOver(source, target).0[c] == if CarriesOver(source, target, c) then source.settings[c] else target.settings[c]
  {
    AppliedAt(source.settings, SameSet(source, target), target.settings, InOrder(Touched(source)), c);
  }

  /** Exactly the touched regions whose whole path means the same in both versions take over their
      settings; every other region keeps its own; and each touched region carries over or is a conflict. */
  lemma CarriedExactly(source: Version, target: Version)
    requires WellStored(source) && WellStored(target)
    ensures var (settings, conflicts) := CarriedOver(source, target);
            && WellStored(target.(settings := settings))
            && (forall c | c in target.regions :: settings[c] == if CarriesOver(source, target, c) then source.settings[c] else target.settings[c])
            && conflicts + |Carried(SameSet(source, target), InOrder(Touched(source)))| == |Touched(source)|
  {
    forall c ensures c in CarriedOver(source, target).0 <==> c in target.settings { CarriedAt(source, target, c); }
    forall c | c in target.regions ensures CarriedOver(source, target).0[c] == if CarriesOver(source, target, c) then source.settings[c] else target.settings[c] {
      CarriedAt(source, target, c);
    }
    AppliedCounts(source.settings, SameSet(source, target), target.settings, InOrder(Touched(source)));
    ListingSize(Touched(source));
  }

  lemma {:induction false} ListingSize(codes: set<string>)
    ensures |InOrder(codes)| == |codes|
  {
    if codes != {} {
      HasLeast(codes);
      LeastIsUnique(codes);
      var least :| IsLeast(codes, least);
      ListingSize(codes - {least});
      assert InOrder(codes) == [least] + InOrder(codes - {least});
    }
  }
}
