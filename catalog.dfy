/**
 * The stage-name catalog of the transformer timeline worker: for a
 * normalised language target, module kind and JSX mode, the ordered list of
 * names of the script transformers the TypeScript compiler runs, and the
 * one-element catalog of the declaration channel.
 *
 * The target, module kind and JSX mode are the numeric values of
 * TypeScript's `ScriptTarget`, `ModuleKind` and `JsxEmit` enums, so the
 * comparisons below are the source's numeric `<` and an unrecognised value
 * simply takes whichever branch its number leads to.
 */
module Catalog {
  import opened Wrappers

  // ScriptTarget values
  const ES3: int := 0
  const ES5: int := 1
  const ES2015: int := 2
  const ES2016: int := 3
  const ES2017: int := 4
  const ES2018: int := 5
  const ES2019: int := 6
  const ES2020: int := 7
  const ESNext: int := 99

  // ModuleKind values
  const ModuleNone: int := 0
  const ModuleCommonJS: int := 1
  const ModuleAMD: int := 2
  const ModuleUMD: int := 3
  const ModuleSystem: int := 4
  const ModuleES2015: int := 5
  const ModuleES2020: int := 6
  const ModuleESNext: int := 99

  // JsxEmit values
  const JsxNone: int := 0
  const JsxPreserve: int := 1
  const JsxReact: int := 2
  const JsxReactNative: int := 3

  /**
   * The compiler settings the catalog depends on, already normalised by the
   * compiler (`getEmitScriptTarget`, `getEmitModuleKind`); `jsx` is `None`
   * when the option is not set.
   */
  datatype EmitSettings = EmitSettings(languageVersion: int, moduleKind: int, jsx: Option<int>)

  /** The three names a module stage can have. */
  const ModuleStageNames: set<string> := {"ES Module", "System", "CommonJs/AMD/UMD"}

  /** The module-format stage: a switch over the module kind with a catch-all default. */
  function ModuleTransformer(moduleKind: int): (name: string)
    ensures name in ModuleStageNames
    ensures name == "ES Module" <==> moduleKind in {ModuleESNext, ModuleES2020, ModuleES2015}
    ensures name == "System" <==> moduleKind == ModuleSystem
    ensures name == "CommonJs/AMD/UMD" <==>
              moduleKind !in {ModuleESNext, ModuleES2020, ModuleES2015, ModuleSystem}
  {
    if moduleKind == ModuleESNext || moduleKind == ModuleES2020 || moduleKind == ModuleES2015 then
      "ES Module"
    else if moduleKind == ModuleSystem then
      "System"
    else
      "CommonJs/AMD/UMD"
  }

  /** A version tier: the stage named `name` runs when the target is below `target`. */
  datatype Tier = Tier(target: int, name: string)

  /** The version tiers, newest first. */
  const VersionTiers: seq<Tier> :=
    [Tier(ESNext, "ESNext"), Tier(ES2020, "ES2020"), Tier(ES2019, "ES2019"),
     Tier(ES2018, "ES2018"), Tier(ES2017, "ES2017"), Tier(ES2016, "ES2016")]

  /** Tiers listed from the newest target to the oldest. */
  ghost predicate Descending(tiers: seq<Tier>) {
    forall i, j :: 0 <= i < j < |tiers| ==> tiers[j].target < tiers[i].target
  }

  function TierNames(tiers: seq<Tier>): (r: seq<string>)
    ensures |r| == |tiers|
    ensures forall i :: 0 <= i < |tiers| ==> r[i] == tiers[i].name
  {
    if tiers == [] then [] else [tiers[0].name] + TierNames(tiers[1..])
  }

  /** The names of the tiers a target falls below, in the order of `tiers`. */
  function GapStages(languageVersion: int, tiers: seq<Tier>): seq<string>
  {
    if tiers == [] then []
    else Seg(languageVersion < tiers[0].target, tiers[0].name) + GapStages(languageVersion, tiers[1..])
  }

  /** One conditional `push`: the name when the condition holds, nothing otherwise. */
  function Seg(condition: bool, name: string): seq<string> {
    if condition then [name] else []
  }

  /** The fixed passes and the JSX pass. */
  function Prologue(s: EmitSettings): seq<string> {
    ["TS", "Class Fields"] + Seg(s.jsx == Some(JsxReact), "JSX")
  }

  /** The stage pair that lowers ES2015 features and generators. */
  function LegacyStages(languageVersion: int): seq<string> {
    if languageVersion < ES2015 then ["ES2015", "Generators"] else []
  }

  /** The fixed passes, JSX, and one conditional push per version tier, newest first. */
  function TierPushes(s: EmitSettings): seq<string> {
    var v := s.languageVersion;
    Prologue(s)
    + Seg(v < ESNext, "ESNext") + Seg(v < ES2020, "ES2020") + Seg(v < ES2019, "ES2019")
    + Seg(v < ES2018, "ES2018") + Seg(v < ES2017, "ES2017") + Seg(v < ES2016, "ES2016")
  }

  /** The stages that run before the module stage, in order. */
  function StagesBeforeModule(s: EmitSettings): seq<string> {
    TierPushes(s) + LegacyStages(s.languageVersion)
  }

  /**
   * The reference script catalog: the stages before the module stage, the
   * module stage, and the ES5 pass last so that it can rewrite the module
   * stage's output.
   */
  function ScriptCatalog(s: EmitSettings): seq<string> {
    StagesBeforeModule(s) + [ModuleTransformer(s.moduleKind)] + Seg(s.languageVersion < ES5, "ES5")
  }

  /** The declaration channel's catalog, whatever the settings. */
  const DtsNames: seq<string> := ["DTS"]

  /**
   * The worker's name builder: pushes the stage names one condition at a
   * time onto a local list, and yields exactly the reference catalog.
   */
  method ScriptTransformerNames(s: EmitSettings) returns (transformers: seq<string>)
    ensures transformers == ScriptCatalog(s)
  {
    var jsx := s.jsx;
    var languageVersion := s.languageVersion;
    var moduleKind := s.moduleKind;
    transformers := [];

    transformers := transformers + ["TS"];
    transformers := transformers + ["Class Fields"];

    if jsx == Some(JsxReact) {
      transformers := transformers + ["JSX"];
    }
    ghost var done := Prologue(s);
    assert transformers == done;

    if languageVersion < ESNext {
      transformers := transformers + ["ESNext"];
    }
    done := done + Seg(languageVersion < ESNext, "ESNext");
    assert transformers == done;

    if languageVersion < ES2020 {
      transformers := transformers + ["ES2020"];
    }
    done := done + Seg(languageVersion < ES2020, "ES2020");
    assert transformers == done;

    if languageVersion < ES2019 {
      transformers := transformers + ["ES2019"];
    }
    done := done + Seg(languageVersion < ES2019, "ES2019");
    assert transformers == done;

    if languageVersion < ES2018 {
      transformers := transformers + ["ES2018"];
    }
    done := done + Seg(languageVersion < ES2018, "ES2018");
    assert transformers == done;

    if languageVersion < ES2017 {
      transformers := transformers + ["ES2017"];
    }
    done := done + Seg(languageVersion < ES2017, "ES2017");
    assert transformers == done;

    if languageVersion < ES2016 {
      transformers := transformers + ["ES2016"];
    }
    done := done + Seg(languageVersion < ES2016, "ES2016");
    assert transformers == done;

    if languageVersion < ES2015 {
      transformers := transformers + ["ES2015"];
      transformers := transformers + ["Generators"];
    }
    assert done == TierPushes(s);
    done := done + LegacyStages(languageVersion);
    assert transformers == done == StagesBeforeModule(s);

    transformers := transformers + [ModuleTransformer(moduleKind)];

    if languageVersion < ES5 {
      transformers := transformers + ["ES5"];
    }
  }

  // ---------------------------------------------------------------------
  // Properties of the catalog
  // ---------------------------------------------------------------------

  /** The number of stages before the version tiers: the two fixed passes and JSX. */
  function TierOffset(s: EmitSettings): nat {
    |Prologue(s)|
  }

  /** The number of version tiers the target falls below. */
  function GapCount(languageVersion: int): nat {
    |GapStages(languageVersion, VersionTiers)|
  }

  /** The position of the module stage in the catalog. */
  function ModuleIndex(s: EmitSettings): nat {
    |StagesBeforeModule(s)|
  }

  /** The walk over the tier table, unfolded tier by tier. */
  lemma GapStagesOfVersionTiers(v: int)
    ensures GapStages(v, VersionTiers) ==
              Seg(v < ESNext, "ESNext") + (Seg(v < ES2020, "ES2020") + (Seg(v < ES2019, "ES2019")
              + (Seg(v < ES2018, "ES2018") + (Seg(v < ES2017, "ES2017") + (Seg(v < ES2016, "ES2016") + [])))))
  {
    var t := VersionTiers;
    var g6: seq<string> := [];
    assert GapStages(v, t[6..]) == g6;
    var g5 := Seg(v < ES2016, "ES2016") + g6;
    assert t[5..][1..] == t[6..] && t[5..][0] == Tier(ES2016, "ES2016");
    assert GapStages(v, t[5..]) == g5;
    var g4 := Seg(v < ES2017, "ES2017") + g5;
    assert t[4..][1..] == t[5..] && t[4..][0] == Tier(ES2017, "ES2017");
    assert GapStages(v, t[4..]) == g4;
    var g3 := Seg(v < ES2018, "ES2018") + g4;
    assert t[3..][1..] == t[4..] && t[3..][0] == Tier(ES2018, "ES2018");
    assert GapStages(v, t[3..]) == g3;
    var g2 := Seg(v < ES2019, "ES2019") + g3;
    assert t[2..][1..] == t[3..] && t[2..][0] == Tier(ES2019, "ES2019");
    assert GapStages(v, t[2..]) == g2;
    var g1 := Seg(v < ES2020, "ES2020") + g2;
    assert t[1..][1..] == t[2..] && t[1..][0] == Tier(ES2020, "ES2020");
    assert GapStages(v, t[1..]) == g1;
    assert t[0] == Tier(ESNext, "ESNext");
    assert GapStages(v, t) == Seg(v < ESNext, "ESNext") + g1;
  }

  lemma AppendAssociative(a: seq<string>, b: seq<string>, c: seq<string>)
    ensures (a + b) + c == a + (b + c)
  {
  }

  /** The tier-by-tier pushes of the name builder walk the tier table newest first. */
  lemma TierPushesFollowTable(s: EmitSettings)
    ensures StagesBeforeModule(s) ==
              Prologue(s) + GapStages(s.languageVersion, VersionTiers) + LegacyStages(s.languageVersion)
  {
    var v := s.languageVersion;
    GapStagesOfVersionTiers(v);
    var s1, s2, s3 := Seg(v < ESNext, "ESNext"), Seg(v < ES2020, "ES2020"), Seg(v < ES2019, "ES2019");
    var s4, s5, s6 := Seg(v < ES2018, "ES2018"), Seg(v < ES2017, "ES2017"), Seg(v < ES2016, "ES2016");
    var g5 := s6 + [];
    var g4 := s5 + g5;
    var g3 := s4 + g4;
    var g2 := s3 + g3;
    var g1 := s2 + g2;
    var g0 := s1 + g1;
    // The pushes group on the left, the table walk on the right; regroup one tier at a time.
    var p := Prologue(s);
    AppendAssociative(p, s1, g1);
    AppendAssociative(p + s1, s2, g2);
    AppendAssociative(p + s1 + s2, s3, g3);
    AppendAssociative(p + s1 + s2 + s3, s4, g4);
    AppendAssociative(p + s1 + s2 + s3 + s4, s5, g5);
    assert p + s1 + s2 + s3 + s4 + s5 + s6 == p + g0;
  }

  /** The catalog is the stages before the module stage, the module stage, then possibly ES5. */
  lemma ModuleStageLayout(s: EmitSettings)
    ensures ModuleIndex(s) == TierOffset(s) + GapCount(s.languageVersion) + |LegacyStages(s.languageVersion)|
    ensures ModuleIndex(s) < |ScriptCatalog(s)|
    ensures ScriptCatalog(s)[..ModuleIndex(s)] == StagesBeforeModule(s)
    ensures ScriptCatalog(s)[ModuleIndex(s)] == ModuleTransformer(s.moduleKind)
    ensures ScriptCatalog(s)[ModuleIndex(s) + 1..] == Seg(s.languageVersion < ES5, "ES5")
  {
    TierPushesFollowTable(s);
  }

  /** What a catalog contains, name by name. */
  lemma CatalogMembership(s: EmitSettings, x: string)
    ensures x in ScriptCatalog(s) <==>
              || x == "TS" || x == "Class Fields"
              || (x == "JSX" && s.jsx == Some(JsxReact))
              || (x == "ESNext" && s.languageVersion < ESNext)
              || (x == "ES2020" && s.languageVersion < ES2020)
              || (x == "ES2019" && s.languageVersion < ES2019)
              || (x == "ES2018" && s.languageVersion < ES2018)
              || (x == "ES2017" && s.languageVersion < ES2017)
              || (x == "ES2016" && s.languageVersion < ES2016)
              || ((x == "ES2015" || x == "Generators") && s.languageVersion < ES2015)
              || x == ModuleTransformer(s.moduleKind)
              || (x == "ES5" && s.languageVersion < ES5)
  {
    TierPushesMembership(s, x);
    assert x in ScriptCatalog(s) <==>
             x in TierPushes(s) || x in LegacyStages(s.languageVersion)
             || x == ModuleTransformer(s.moduleKind) || x in Seg(s.languageVersion < ES5, "ES5");
  }

  /** What the fixed passes, JSX and the version-tier stages contain, name by name. */
  lemma TierPushesMembership(s: EmitSettings, x: string)
    ensures x in TierPushes(s) <==>
              || x == "TS" || x == "Class Fields"
              || (x == "JSX" && s.jsx == Some(JsxReact))
              || (x == "ESNext" && s.languageVersion < ESNext)
              || (x == "ES2020" && s.languageVersion < ES2020)
              || (x == "ES2019" && s.languageVersion < ES2019)
              || (x == "ES2018" && s.languageVersion < ES2018)
              || (x == "ES2017" && s.languageVersion < ES2017)
              || (x == "ES2016" && s.languageVersion < ES2016)
  {
    assert x in Prologue(s) <==> x == "TS" || x == "Class Fields" || (x == "JSX" && s.jsx == Some(JsxReact));
  }

  /**
   * Over tiers listed newest first, the stages for the tiers a target falls
   * below are exactly a prefix of the tier names: tier `i` is in the prefix
   * iff the target is below it.
   */
  lemma {:induction false} GapStagesArePrefix(v: int, tiers: seq<Tier>)
    requires Descending(tiers)
    ensures |GapStages(v, tiers)| <= |tiers|
    ensures GapStages(v, tiers) == TierNames(tiers)[..|GapStages(v, tiers)|]
    ensures forall i :: 0 <= i < |tiers| ==> (i < |GapStages(v, tiers)| <==> v < tiers[i].target)
  {
    if tiers != [] {
      var rest := tiers[1..];
      DescendingTail(tiers);
      if v < tiers[0].target {
        GapStagesArePrefix(v, rest);
        var g := GapStages(v, rest);
        assert GapStages(v, tiers) == [tiers[0].name] + g;
        assert TierNames(tiers) == [tiers[0].name] + TierNames(rest);
        forall i | 0 < i < |tiers| ensures (i < |g| + 1 <==> v < tiers[i].target) {
          assert tiers[i] == rest[i - 1];
        }
      } else {
        // Below none of the older tiers either, since they are older still.
        forall i | 0 <= i < |tiers| ensures v >= tiers[i].target {
        }
        NoGapStages(v, tiers);
      }
    }
  }

  /** Dropping the newest tier keeps a table in descending order. */
  lemma DescendingTail(tiers: seq<Tier>)
    requires Descending(tiers) && tiers != []
    ensures Descending(tiers[1..])
  {
    var rest := tiers[1..];
    forall i, j | 0 <= i < j < |rest| ensures rest[j].target < rest[i].target {
      assert rest[i] == tiers[i + 1] && rest[j] == tiers[j + 1];
    }
  }

  /** A target at or above every tier falls below none of them. */
  lemma {:induction false} NoGapStages(v: int, tiers: seq<Tier>)
    requires forall i :: 0 <= i < |tiers| ==> v >= tiers[i].target
    ensures GapStages(v, tiers) == []
  {
    if tiers != [] {
      var rest := tiers[1..];
      forall i | 0 <= i < |rest| ensures v >= rest[i].target {
        assert rest[i] == tiers[i + 1];
      }
      NoGapStages(v, rest);
    }
  }

  lemma VersionTiersDescending()
    ensures Descending(VersionTiers)
  {
  }

  /** Every name differs from all the names before it (a definition without quantifiers). */
  ghost predicate NoRepeats(names: seq<string>)
    decreases |names|
  {
    names == [] || (names[|names| - 1] !in names[..|names| - 1] && NoRepeats(names[..|names| - 1]))
  }

  ghost predicate Distinct(names: seq<string>) {
    forall i, j :: 0 <= i < j < |names| ==> names[i] != names[j]
  }

  lemma {:induction false} NoRepeatsDistinct(names: seq<string>)
    requires NoRepeats(names)
    ensures Distinct(names)
  {
    if names != [] {
      var init := names[..|names| - 1];
      NoRepeatsDistinct(init);
      forall i, j | 0 <= i < j < |names| ensures names[i] != names[j] {
        if j < |names| - 1 {
          assert names[i] == init[i] && names[j] == init[j];
        } else {
          assert names[i] == init[i] && init[i] in init;
        }
      }
    }
  }

  /** Every name of `names` is one of `known` (a definition without quantifiers). */
  ghost predicate Within(names: seq<string>, known: set<string>)
    decreases |names|
  {
    names == [] || (names[|names| - 1] in known && Within(names[..|names| - 1], known))
  }

  /** A list within `known` holds, at every position, a name of `known`. */
  lemma {:induction false} WithinAt(names: seq<string>, known: set<string>, i: nat)
    requires Within(names, known) && i < |names|
    ensures names[i] in known
  {
    if i < |names| - 1 {
      WithinAt(names[..|names| - 1], known, i);
    }
  }

  /** A list within `known` holds no name outside it. */
  lemma WithinExcludes(names: seq<string>, known: set<string>, name: string)
    requires Within(names, known) && name !in known
    ensures name !in names
  {
    if name in names {
      var i :| 0 <= i < |names| && names[i] == name;
      WithinAt(names, known, i);
    }
  }

  /** Widening the known names keeps a list within them. */
  lemma {:induction false} WithinWiden(names: seq<string>, known: set<string>, more: set<string>)
    requires Within(names, known) && known <= more
    ensures Within(names, more)
  {
    if names != [] {
      WithinWiden(names[..|names| - 1], known, more);
    }
  }

  /** The names that can be pushed before the version-tier stages end. */
  const TierStageNames: set<string> :=
    {"TS", "Class Fields", "JSX", "ESNext", "ES2020", "ES2019", "ES2018", "ES2017", "ES2016"}

  /** The names that can be pushed before the module stage. */
  const BeforeModuleNames: set<string> := TierStageNames + {"ES2015", "Generators"}

  /**
   * Appending a stage name that none of the names so far can be keeps the
   * list free of repeats, and the name joins those it can hold.
   */
  lemma NoRepeatsAfterSeg(h: seq<string>, known: set<string>, condition: bool, name: string)
    requires NoRepeats(h) && Within(h, known) && name !in known
    ensures NoRepeats(h + Seg(condition, name)) && Within(h + Seg(condition, name), known + {name})
  {
    WithinExcludes(h, known, name);
    WithinWiden(h, known, known + {name});
    if condition {
      var r := h + [name];
      assert r[|r| - 1] == name && r[..|r| - 1] == h;
    } else {
      assert h + Seg(condition, name) == h;
    }
  }

  /** The fixed passes, JSX and the three newest version-tier stages repeat no name. */
  lemma NewestPushesNoRepeats(s: EmitSettings)
    ensures NoRepeats(Prologue(s) + Seg(s.languageVersion < ESNext, "ESNext")
                      + Seg(s.languageVersion < ES2020, "ES2020") + Seg(s.languageVersion < ES2019, "ES2019"))
    ensures Within(Prologue(s) + Seg(s.languageVersion < ESNext, "ESNext")
                   + Seg(s.languageVersion < ES2020, "ES2020") + Seg(s.languageVersion < ES2019, "ES2019"),
                   {"TS", "Class Fields", "JSX", "ESNext", "ES2020", "ES2019"})
  {
    var v := s.languageVersion;
    var h0 := ["TS", "Class Fields"];
    var k0 := {"TS", "Class Fields"};
    assert NoRepeats(h0) && Within(h0, k0) by {
      assert h0[..1] == ["TS"] && ["TS"][..0] == [];
    }
    NoRepeatsAfterSeg(h0, k0, s.jsx == Some(JsxReact), "JSX");
    var h1 := Prologue(s);
    NoRepeatsAfterSeg(h1, k0 + {"JSX"}, v < ESNext, "ESNext");
    var h2 := h1 + Seg(v < ESNext, "ESNext");
    NoRepeatsAfterSeg(h2, k0 + {"JSX"} + {"ESNext"}, v < ES2020, "ES2020");
    var h3 := h2 + Seg(v < ES2020, "ES2020");
    var k4 := k0 + {"JSX"} + {"ESNext"} + {"ES2020"};
    NoRepeatsAfterSeg(h3, k4, v < ES2019, "ES2019");
    WithinWiden(h3 + Seg(v < ES2019, "ES2019"), k4 + {"ES2019"},
                {"TS", "Class Fields", "JSX", "ESNext", "ES2020", "ES2019"});
  }

  /** The fixed passes, JSX and the version-tier stages repeat no name. */
  lemma TierPushesNoRepeats(s: EmitSettings)
    ensures NoRepeats(TierPushes(s)) && Within(TierPushes(s), TierStageNames)
  {
    var v := s.languageVersion;
    var h4 := Prologue(s) + Seg(v < ESNext, "ESNext") + Seg(v < ES2020, "ES2020") + Seg(v < ES2019, "ES2019");
    var k4 := {"TS", "Class Fields", "JSX", "ESNext", "ES2020", "ES2019"};
    NewestPushesNoRepeats(s);
    NoRepeatsAfterSeg(h4, k4, v < ES2018, "ES2018");
    var h5 := h4 + Seg(v < ES2018, "ES2018");
    NoRepeatsAfterSeg(h5, k4 + {"ES2018"}, v < ES2017, "ES2017");
    var h6 := h5 + Seg(v < ES2017, "ES2017");
    NoRepeatsAfterSeg(h6, k4 + {"ES2018"} + {"ES2017"}, v < ES2016, "ES2016");
    WithinWiden(TierPushes(s), k4 + {"ES2018"} + {"ES2017"} + {"ES2016"}, TierStageNames);
  }

  /** The stages before the module stage repeat no name. */
  lemma StagesBeforeModuleNoRepeats(s: EmitSettings)
    ensures NoRepeats(StagesBeforeModule(s)) && Within(StagesBeforeModule(s), BeforeModuleNames)
  {
    var v := s.languageVersion;
    var h := TierPushes(s);
    TierPushesNoRepeats(s);
    NoRepeatsAfterSeg(h, TierStageNames, v < ES2015, "ES2015");
    var h' := h + Seg(v < ES2015, "ES2015");
    NoRepeatsAfterSeg(h', TierStageNames + {"ES2015"}, v < ES2015, "Generators");
    assert h' + Seg(v < ES2015, "Generators") == StagesBeforeModule(s);
    WithinWiden(StagesBeforeModule(s), TierStageNames + {"ES2015"} + {"Generators"}, BeforeModuleNames);
  }

  /** No stage name occurs twice in a catalog. */
  lemma CatalogNamesDistinct(s: EmitSettings)
    ensures Distinct(ScriptCatalog(s))
  {
    var h := StagesBeforeModule(s);
    StagesBeforeModuleNoRepeats(s);
    var m := ModuleTransformer(s.moduleKind);
    NoRepeatsAfterSeg(h, BeforeModuleNames, true, m);
    NoRepeatsAfterSeg(h + [m], BeforeModuleNames + {m}, s.languageVersion < ES5, "ES5");
    NoRepeatsDistinct(ScriptCatalog(s));
  }

  /** The catalog begins with "TS" and then "Class Fields", and neither name recurs. */
  lemma CatalogBeginsWithTsAndClassFields(s: EmitSettings)
    ensures |ScriptCatalog(s)| >= 3
    ensures ScriptCatalog(s)[0] == "TS" && ScriptCatalog(s)[1] == "Class Fields"
    ensures forall i :: 2 <= i < |ScriptCatalog(s)| ==>
              ScriptCatalog(s)[i] != "TS" && ScriptCatalog(s)[i] != "Class Fields"
  {
    CatalogNamesDistinct(s);
    ModuleStageLayout(s);
  }

  /** The catalog opens with the fixed passes and JSX. */
  lemma CatalogStartsWithPrologue(s: EmitSettings)
    ensures |Prologue(s)| < |ScriptCatalog(s)|
    ensures ScriptCatalog(s)[..|Prologue(s)|] == Prologue(s)
  {
    var p := Prologue(s);
    var t := TierPushes(s);
    var c := ScriptCatalog(s);
    assert t[..|p|] == p;
    assert c[..|t|] == t;
    assert c[..|p|] == t[..|p|];
  }

  /** "JSX" is in the catalog iff JSX is React, and then it follows "Class Fields". */
  lemma JsxStageIffReact(s: EmitSettings)
    ensures "JSX" in ScriptCatalog(s) <==> s.jsx == Some(JsxReact)
    ensures "JSX" in ScriptCatalog(s) ==> ScriptCatalog(s)[2] == "JSX"
  {
    CatalogMembership(s, "JSX");
    CatalogStartsWithPrologue(s);
    if s.jsx == Some(JsxReact) {
      assert ScriptCatalog(s)[2] == Prologue(s)[2];
    }
  }

  /**
   * The version-tier stages sit right after the fixed passes and JSX, newest
   * first, and tier `i` is among them iff the target is below it.
   */
  lemma TierStagesInDescendingOrder(s: EmitSettings)
    ensures TierOffset(s) + GapCount(s.languageVersion) <= |ScriptCatalog(s)|
    ensures GapCount(s.languageVersion) <= |VersionTiers|
    ensures ScriptCatalog(s)[TierOffset(s)..TierOffset(s) + GapCount(s.languageVersion)]
            == TierNames(VersionTiers)[..GapCount(s.languageVersion)]
    ensures forall i :: 0 <= i < |VersionTiers| ==>
              (i < GapCount(s.languageVersion) <==> s.languageVersion < VersionTiers[i].target)
  {
    VersionTiersDescending();
    GapStagesArePrefix(s.languageVersion, VersionTiers);
    TierBlock(s);
  }

  /** Right after the fixed passes and JSX come the stages of the tiers the target falls below. */
  lemma TierBlock(s: EmitSettings)
    ensures TierOffset(s) + GapCount(s.languageVersion) <= |ScriptCatalog(s)|
    ensures ScriptCatalog(s)[TierOffset(s)..TierOffset(s) + GapCount(s.languageVersion)]
            == GapStages(s.languageVersion, VersionTiers)
  {
    var v := s.languageVersion;
    var after := LegacyStages(v) + [ModuleTransformer(s.moduleKind)] + Seg(v < ES5, "ES5");
    CatalogAroundTiers(s);
    MiddleSlice(Prologue(s), GapStages(v, VersionTiers), after);
  }

  /** The catalog is the prologue, the tier stages, and everything from the legacy pair on. */
  lemma CatalogAroundTiers(s: EmitSettings)
    ensures ScriptCatalog(s) ==
              Prologue(s) + GapStages(s.languageVersion, VersionTiers)
              + (LegacyStages(s.languageVersion) + [ModuleTransformer(s.moduleKind)] + Seg(s.languageVersion < ES5, "ES5"))
  {
    var v := s.languageVersion;
    TierPushesFollowTable(s);
    var pg := Prologue(s) + GapStages(v, VersionTiers);
    var l, m, e := LegacyStages(v), [ModuleTransformer(s.moduleKind)], Seg(v < ES5, "ES5");
    AppendAssociative(pg + l, m, e);
    AppendAssociative(pg, l, m + e);
    AppendAssociative(l, m, e);
  }

  /** In `a + b + c`, the slice from `|a|` of length `|b|` is `b`. */
  lemma MiddleSlice<X>(a: seq<X>, b: seq<X>, c: seq<X>)
    ensures |a| + |b| <= |a + b + c|
    ensures (a + b + c)[|a|..|a| + |b|] == b
  {
  }

  /** Each version-tier name occurs in the catalog iff the target is below that tier. */
  lemma TierStageIffBelow(s: EmitSettings, i: nat)
    requires i < |VersionTiers|
    ensures VersionTiers[i].name in ScriptCatalog(s) <==> s.languageVersion < VersionTiers[i].target
  {
    CatalogMembership(s, VersionTiers[i].name);
  }

  /** "ES2015" and "Generators" occur together, adjacent, iff the target is below ES2015. */
  lemma Es2015AndGeneratorsTogether(s: EmitSettings)
    ensures "ES2015" in ScriptCatalog(s) <==> s.languageVersion < ES2015
    ensures "Generators" in ScriptCatalog(s) <==> s.languageVersion < ES2015
    ensures s.languageVersion < ES2015 ==>
              ModuleIndex(s) >= 2 && ScriptCatalog(s)[ModuleIndex(s) - 2] == "ES2015"
              && ScriptCatalog(s)[ModuleIndex(s) - 1] == "Generators"
  {
    CatalogMembership(s, "ES2015");
    CatalogMembership(s, "Generators");
    if s.languageVersion < ES2015 {
      var before := StagesBeforeModule(s);
      var m := |before|;
      var c := ScriptCatalog(s);
      assert before == TierPushes(s) + ["ES2015", "Generators"];
      assert before[m - 2] == "ES2015" && before[m - 1] == "Generators";
      assert c[m - 2] == before[m - 2] && c[m - 1] == before[m - 1];
    }
  }

  /** Only the stage at `ModuleIndex` carries a module-stage name. */
  lemma ModuleNamesOnlyAtModuleIndex(s: EmitSettings)
    ensures forall i :: 0 <= i < |ScriptCatalog(s)| ==>
              (ScriptCatalog(s)[i] in ModuleStageNames <==> i == ModuleIndex(s))
  {
    ModuleStageLayout(s);
    var c := ScriptCatalog(s);
    var m := ModuleIndex(s);
    var before := StagesBeforeModule(s);
    StagesBeforeModuleNoRepeats(s);
    forall i | 0 <= i < |c| ensures c[i] in ModuleStageNames <==> i == m {
      if i < m {
        assert c[i] == before[i];
        WithinAt(before, BeforeModuleNames, i);
        NoModuleNameBeforeModule(before[i]);
      } else if i > m {
        assert c[i] == c[m + 1..][i - m - 1];
      }
    }
  }

  /** None of the names pushed before the module stage is a module-stage name. */
  lemma NoModuleNameBeforeModule(x: string)
    requires x in BeforeModuleNames
    ensures x !in ModuleStageNames
  {
  }

  /**
   * Exactly one stage of the catalog is a module stage: the one at
   * `ModuleIndex`, named by the module kind, after every version-tier stage.
   */
  lemma ExactlyOneModuleStage(s: EmitSettings)
    ensures ModuleIndex(s) < |ScriptCatalog(s)|
    ensures ScriptCatalog(s)[ModuleIndex(s)] == ModuleTransformer(s.moduleKind)
    ensures forall i :: 0 <= i < |ScriptCatalog(s)| ==>
              (ScriptCatalog(s)[i] in ModuleStageNames <==> i == ModuleIndex(s))
    ensures forall i, t ::
              (0 <= i < |ScriptCatalog(s)| && 0 <= t < |VersionTiers| && ScriptCatalog(s)[i] == VersionTiers[t].name)
              ==> i < ModuleIndex(s)
  {
    ModuleStageLayout(s);
    ModuleNamesOnlyAtModuleIndex(s);
    var c := ScriptCatalog(s);
    var m := ModuleIndex(s);
    // Past the module stage there is at most "ES5", which names no tier.
    forall i | m < i < |c| ensures c[i] == "ES5" {
      assert c[i] == c[m + 1..][i - m - 1];
    }
  }

  /** "ES5" is in the catalog iff the target is below ES5, and then it is the last stage, and the only "ES5". */
  lemma Es5StageLast(s: EmitSettings)
    ensures "ES5" in ScriptCatalog(s) <==> s.languageVersion < ES5
    ensures s.languageVersion < ES5 ==>
              |ScriptCatalog(s)| == ModuleIndex(s) + 2
              && ScriptCatalog(s)[|ScriptCatalog(s)| - 1] == "ES5"
              && "ES5" !in ScriptCatalog(s)[..|ScriptCatalog(s)| - 1]
    ensures s.languageVersion >= ES5 ==> |ScriptCatalog(s)| == ModuleIndex(s) + 1
  {
    var before := StagesBeforeModule(s);
    var upToModule := before + [ModuleTransformer(s.moduleKind)];
    StagesBeforeModuleNoRepeats(s);
    WithinExcludes(before, BeforeModuleNames, "ES5");
    assert "ES5" !in upToModule;
    assert ScriptCatalog(s) == upToModule + Seg(s.languageVersion < ES5, "ES5");
    if s.languageVersion < ES5 {
      assert ScriptCatalog(s)[..|ScriptCatalog(s)| - 1] == upToModule;
    }
  }

  /** A target at or above ESNext needs no lowering: the fixed passes, JSX and the module stage only. */
  lemma NewestTargetCatalog(s: EmitSettings)
    requires s.languageVersion >= ESNext
    ensures ScriptCatalog(s) ==
              ["TS", "Class Fields"]
              + (if s.jsx == Some(JsxReact) then ["JSX"] else [])
              + [ModuleTransformer(s.moduleKind)]
  {
  }

  /** An ES3 target runs every stage: all tiers, the ES2015/generator pair, and ES5 last. */
  lemma Es3TargetCatalog(s: EmitSettings)
    requires s.languageVersion == ES3
    ensures ScriptCatalog(s) ==
              ["TS", "Class Fields"]
              + (if s.jsx == Some(JsxReact) then ["JSX"] else [])
              + ["ESNext", "ES2020", "ES2019", "ES2018", "ES2017", "ES2016", "ES2015", "Generators"]
              + [ModuleTransformer(s.moduleKind)]
              + ["ES5"]
  {
  }

  /** An ES5 target with CommonJS and no JSX: every tier and the ES2015/generator pair, but no ES5 stage. */
  lemma Es5CommonJsCatalog()
    ensures ScriptCatalog(EmitSettings(ES5, ModuleCommonJS, None)) ==
              ["TS", "Class Fields", "ESNext", "ES2020", "ES2019", "ES2018", "ES2017", "ES2016",
               "ES2015", "Generators", "CommonJs/AMD/UMD"]
  {
  }
}
