/** The plan against its inputs: what is current, what is vulnerable, and what is proposed, with nothing left out. */
module PlanCoverage {
  import opened Collections
  import opened Semver
  import opened Sorting
  import opened Planner

  // ---------------------------------------------------------------------
  // The current version
  // ---------------------------------------------------------------------

  predicate InstalledInRange(dep: Dep) {
    dep.installed.Some? && Satisfies(dep.installed.value, dep.declared.range)
  }

  /** Published, stable and in the declared range. */
  predicate Eligible(dep: Dep, versions: seq<Version>, v: Version) {
    v in versions && Stable(v) && Satisfies(v, dep.declared.range)
  }

  ghost predicate LeastEligible(dep: Dep, versions: seq<Version>, v: Version) {
    Eligible(dep, versions, v) && forall u :: Eligible(dep, versions, u) ==> AtMost(v.parsed.value, u.parsed.value)
  }

  /** The installed version while it is in range, else a least eligible one. */
  ghost predicate IsCurrent(dep: Dep, versions: seq<Version>, v: Version) {
    if InstalledInRange(dep) then dep.installed == Some(v) else LeastEligible(dep, versions, v)
  }

  lemma CurrentExactly(dep: Dep, versions: seq<Version>)
    ensures var current := ResolveCurrentVersion(dep, versions);
            && (current.Some? ==> IsCurrent(dep, versions, current.value))
            && (InstalledInRange(dep) ==> current == dep.installed)
            && (current == None <==> !InstalledInRange(dep) && forall v :: !Eligible(dep, versions, v))
  {
    LowestIsLeast(StableSorted(versions), dep.declared.range);
    StableSortedFacts(versions);
    hide StableSorted, LowestIn, Satisfies, Sorted;
  }

  /** Two current versions differ in their text at most. */
  lemma CurrentIsOne(dep: Dep, versions: seq<Version>, v: Version)
    requires IsCurrent(dep, versions, v)
    ensures var current := ResolveCurrentVersion(dep, versions);
            current.Some? && current.value.parsed == v.parsed && (InstalledInRange(dep) ==> current.value == v)
  {
    CurrentExactly(dep, versions);
    hide ResolveCurrentVersion, Satisfies;
    var current := ResolveCurrentVersion(dep, versions);
    if !InstalledInRange(dep) {
      assert Eligible(dep, versions, v);
      ZeroExactlyWhenEqual(current.value.parsed.value, v.parsed.value);
      ZeroExactlyWhenEqual(v.parsed.value, current.value.parsed.value);
    }
  }

  // ---------------------------------------------------------------------
  // Vulnerabilities
  // ---------------------------------------------------------------------

  /** A known advisory of the package bites the version. */
  ghost predicate Bitten(intel: Intel, name: string, v: Version) {
    name in intel.advisories && exists a :: a in intel.advisories[name] && Satisfies(v, a.vulnerable)
  }

  lemma BittenExactly(intel: Intel, name: string, v: Version)
    ensures Bitten(intel, name, v) <==> !ClearsAll(v, AdvisoriesFor(intel, name))
  {
    hide Satisfies;
    if Bitten(intel, name, v) {
      var a :| a in intel.advisories[name] && Satisfies(v, a.vulnerable);
      assert a in AdvisoriesFor(intel, name) && Bites(a, v);
    }
  }

  lemma SameParsed(intel: Intel, name: string, a: Version, b: Version)
    requires a.parsed == b.parsed
    ensures Bitten(intel, name, a) <==> Bitten(intel, name, b)
    ensures FixExists(intel, name, a) <==> FixExists(intel, name, b)
  {
    hide AdmitsAll;
    assert forall r :: Satisfies(a, r) <==> Satisfies(b, r);
    assert forall v :: Fixes(intel, name, a, v) <==> Fixes(intel, name, b, v) by {
      assert forall v :: Above(v, a) <==> Above(v, b);
    }
    if FixExists(intel, name, a) {
      var v :| Fixes(intel, name, a, v);
      assert Fixes(intel, name, b, v);
    }
    if FixExists(intel, name, b) {
      var v :| Fixes(intel, name, b, v);
      assert Fixes(intel, name, a, v);
    }
  }

  /** The current version `v` of the dependency is published with its package and bitten. */
  ghost predicate Exposed(dep: Dep, intel: Intel, v: Version) {
    dep.name in intel.packuments && IsCurrent(dep, intel.packuments[dep.name], v) && Bitten(intel, dep.name, v)
  }

  lemma ExposedExactly(dep: Dep, intel: Intel, v: Version)
    requires Exposed(dep, intel, v)
    ensures Vulnerable(dep, intel) && (Fixable(dep, intel) <==> FixExists(intel, dep.name, v))
    ensures var current := ResolveCurrentVersion(dep, intel.packuments[dep.name]).value;
            current.parsed == v.parsed && (InstalledInRange(dep) ==> current == v)
  {
    CurrentIsOne(dep, intel.packuments[dep.name], v);
    var current := ResolveCurrentVersion(dep, intel.packuments[dep.name]).value;
    SameParsed(intel, dep.name, current, v);
    BittenExactly(intel, dep.name, current);
    hide ResolveCurrentVersion, FixExists, ClearsAll, Bitten;
  }

  /** The security item for a dependency whose current version is `v`: from it to its nearest fix. */
  ghost predicate Answers(dep: Dep, intel: Intel, v: Version, item: Item) {
    && item.kind == Security && item.name == dep.name && NearestFix(intel, item)
    && item.current.parsed == v.parsed && (InstalledInRange(dep) ==> item.current == v)
    && Satisfies(item.target, item.newRange.range)
  }

  /**
   Every dependency whose current version a known advisory bites is answered in the final
   plan: by an upgrade from that version to its nearest fix, or by a "no fix" entry exactly
   when nothing fixes it.
   */
  lemma ExposedIsAnswered(deps: seq<Dep>, intel: Intel, proposeNextMajor: bool, collate: string -> int, dep: Dep, v: Version)
    requires dep in deps && Exposed(dep, intel, v)
    ensures var plan := PlanOf(deps, intel, proposeNextMajor, collate);
            if FixExists(intel, dep.name, v) then exists item :: item in plan.items && Answers(dep, intel, v, item)
            else exists s :: s in plan.unactionable && s.name == dep.name && s.reason.NoFix?
  {
    var plan := PlanOf(deps, intel, proposeNextMajor, collate);
    ExposedExactly(dep, intel, v);
    PlanAnswersEveryVulnerability(deps, intel, proposeNextMajor, collate);
    hide PlanOf, Vulnerable, Fixable, FixExists, NearestFix, Satisfies, ResolveCurrentVersion;
    if Fixable(dep, intel) {
      var item :| item in plan.items && SecurityItemFor(dep, intel, item);
      assert Answers(dep, intel, v, item);
    }
  }

  /** So in particular an installed version in range is never overlooked. */
  lemma InstalledIsAnswered(deps: seq<Dep>, intel: Intel, proposeNextMajor: bool, collate: string -> int, dep: Dep)
    requires dep in deps && dep.name in intel.packuments && InstalledInRange(dep) && Bitten(intel, dep.name, dep.installed.value)
    ensures var plan, v := PlanOf(deps, intel, proposeNextMajor, collate), dep.installed.value;
            if FixExists(intel, dep.name, v) then
              exists item :: item in plan.items && item.kind == Security && item.name == dep.name && item.current == v && NearestFix(intel, item)
            else exists s :: s in plan.unactionable && s.name == dep.name && s.reason.NoFix?
  {
    ExposedIsAnswered(deps, intel, proposeNextMajor, collate, dep, dep.installed.value);
    hide PlanOf, FixExists, NearestFix, Satisfies, Bitten;
  }

  /** Every security item of the plan answers such a dependency. */
  lemma OnlyExposedAreFixed(deps: seq<Dep>, intel: Intel, proposeNextMajor: bool, collate: string -> int, item: Item)
    requires item in PlanOf(deps, intel, proposeNextMajor, collate).items && item.kind == Security
    ensures exists dep :: dep in deps && Exposed(dep, intel, item.current) && Answers(dep, intel, item.current, item)
  {
    PlanAnswersEveryVulnerability(deps, intel, proposeNextMajor, collate);
    var dep :| dep in deps && SecurityItemFor(dep, intel, item);
    CurrentExactly(dep, intel.packuments[dep.name]);
    BittenExactly(intel, dep.name, item.current);
    hide PlanOf, NearestFix, Satisfies, ResolveCurrentVersion, ClearsAll, Bitten, IsCurrent;
    assert Exposed(dep, intel, item.current) && Answers(dep, intel, item.current, item);
  }

  // ---------------------------------------------------------------------
  // Maintenance
  // ---------------------------------------------------------------------

  /** A greatest of the published stable versions, among those in range if `inRange`. */
  ghost predicate Greatest(dep: Dep, versions: seq<Version>, inRange: bool, t: Version) {
    && t in versions && Stable(t) && (inRange ==> Satisfies(t, dep.declared.range))
    && forall u :: u in versions && Stable(u) && (inRange ==> Satisfies(u, dep.declared.range)) ==> AtMost(u.parsed.value, t.parsed.value)
  }

  /** The upgrade worth proposing within the range, from `current`. */
  ghost predicate InRangeUpgrade(dep: Dep, intel: Intel, current: Version, t: Version)
    requires dep.name in intel.packuments
  {
    Greatest(dep, intel.packuments[dep.name], true, t) && Above(t, current) && !Bitten(intel, dep.name, t)
  }

  ghost predicate MajorUpgrade(dep: Dep, intel: Intel, current: Version, t: Version)
    requires dep.name in intel.packuments
  {
    Greatest(dep, intel.packuments[dep.name], false, t) && MajorOf(t) > MajorOf(current) && !Bitten(intel, dep.name, t)
  }

  lemma GreatestIsOne(dep: Dep, versions: seq<Version>, inRange: bool, t: Version, u: Version)
    requires Greatest(dep, versions, inRange, t) && Greatest(dep, versions, inRange, u)
    ensures t.parsed == u.parsed
  {
    hide Satisfies;
    ZeroExactlyWhenEqual(t.parsed.value, u.parsed.value);
    ZeroExactlyWhenEqual(u.parsed.value, t.parsed.value);
  }

  /** The highest in range is a greatest one; there is none exactly when nothing is in range. */
  lemma LatestExactly(dep: Dep, versions: seq<Version>)
    ensures var latest := HighestIn(StableSorted(versions), dep.declared.range);
            && (latest.Some? ==> Greatest(dep, versions, true, latest.value))
            && (latest == None ==> forall t :: !Greatest(dep, versions, true, t))
  {
    HighestStable(versions, dep.declared.range);
    HighestIsGreatest(StableSorted(versions), dep.declared.range);
    StableSortedFacts(versions);
    hide StableSorted, HighestIn, Satisfies, Sorted;
  }

  lemma TopExactly(dep: Dep, versions: seq<Version>)
    ensures var stable := StableSorted(versions);
            && (stable != [] ==> stable[|stable| - 1].parsed.Some? && Greatest(dep, versions, false, stable[|stable| - 1]))
            && (stable == [] ==> forall t :: !Greatest(dep, versions, false, t))
  {
    var stable := StableSorted(versions);
    StableSortedFacts(versions);
    hide StableSorted, Satisfies;
    if stable != [] {
      var last := stable[|stable| - 1];
      assert last in stable;
      forall u | u in versions && Stable(u) ensures AtMost(u.parsed.value, last.parsed.value) { LastIsGreatestVersion(stable, u); }
    }
  }

  /** One item of each kind at most. */
  lemma MaintenanceIs(dep: Dep, stable: seq<Version>, current: Version, advisories: seq<Advisory>, proposeNextMajor: bool)
    returns (upgrade: Option<Item>, major: Option<Item>)
    ensures Maintenance(dep, stable, current, advisories, proposeNextMajor) ==
            (if upgrade.Some? then [upgrade.value] else []) + if major.Some? then [major.value] else []
    ensures var latest := HighestIn(stable, dep.declared.range);
            && (upgrade.Some? <==> Takes(latest, current, advisories))
            && (upgrade.Some? ==> upgrade.value.kind == Outdated && upgrade.value.target == latest.value
                                  && upgrade.value.name == dep.name && upgrade.value.current == current)
    ensures major.Some? <==> proposeNextMajor && TakesMajor(stable, current, advisories)
    ensures major.Some? ==> stable != [] && major.value.kind == NextMajor && major.value.target == stable[|stable| - 1]
                            && major.value.name == dep.name && major.value.current == current
  {
    hide HighestIn, PreserveRangeStyle;
    TakesParse(dep, stable, current, advisories);
    hide Takes, TakesMajor;
    var latest := HighestIn(stable, dep.declared.range);
    upgrade := if Takes(latest, current, advisories) then Some(NewItem(dep, Outdated, current, latest.value, false, [])) else None;
    major := if proposeNextMajor && TakesMajor(stable, current, advisories)
    then Some(NewItem(dep, NextMajor, current, stable[|stable| - 1], true, [])) else None;
  }

  /** What the maintenance items of a dependency have to be. */
  ghost predicate ProposedExactly(dep: Dep, intel: Intel, current: Version, proposeNextMajor: bool, items: seq<Item>)
    requires dep.name in intel.packuments
  {
    && ((exists item :: item in items && item.kind == Outdated) <==> exists t :: InRangeUpgrade(dep, intel, current, t))
    && ((exists item :: item in items && item.kind == NextMajor) <==> proposeNextMajor && exists t :: MajorUpgrade(dep, intel, current, t))
    && (forall item :: item in items && item.kind == Outdated ==> InRangeUpgrade(dep, intel, current, item.target))
    && (forall item :: item in items && item.kind == NextMajor ==> MajorUpgrade(dep, intel, current, item.target))
    && (forall item :: item in items ==> item.name == dep.name && item.current == current && item.kind != Security)
    && (forall i, j :: 0 <= i < j < |items| ==> items[i].kind != items[j].kind)
  }

  /** The maintenance items of an unbitten current version: each proposed exactly when there is such an upgrade, and to it. */
  lemma MaintenanceExactly(dep: Dep, intel: Intel, current: Version, proposeNextMajor: bool)
    requires dep.name in intel.packuments
    ensures ProposedExactly(dep, intel, current, proposeNextMajor,
                            Maintenance(dep, StableSorted(intel.packuments[dep.name]), current, AdvisoriesFor(intel, dep.name), proposeNextMajor))
  {
    hide StableSorted, HighestIn, Takes, TakesMajor, InRangeUpgrade, MajorUpgrade, AdvisoriesFor, Maintenance;
    InRangeExactly(dep, intel, current);
    MajorExactly(dep, intel, current);
    var stable, advisories := StableSorted(intel.packuments[dep.name]), AdvisoriesFor(intel, dep.name);
    var upgrade, major := MaintenanceIs(dep, stable, current, advisories, proposeNextMajor);
    var items := Maintenance(dep, stable, current, advisories, proposeNextMajor);
    assert forall item :: item in items <==> Some(item) == upgrade || Some(item) == major;
    if upgrade.Some? { assert upgrade.value in items; }
    if major.Some? { assert major.value in items; }
  }

  lemma TakesParse(dep: Dep, stable: seq<Version>, current: Version, advisories: seq<Advisory>)
    ensures var latest := HighestIn(stable, dep.declared.range); Takes(latest, current, advisories) ==> latest.Some? && latest.value.parsed.Some?
    ensures TakesMajor(stable, current, advisories) ==> stable != [] && stable[|stable| - 1].parsed.Some?
  {
  }

  lemma InRangeExactly(dep: Dep, intel: Intel, current: Version)
    requires dep.name in intel.packuments
    ensures var latest := HighestIn(StableSorted(intel.packuments[dep.name]), dep.declared.range);
            if Takes(latest, current, AdvisoriesFor(intel, dep.name)) then InRangeUpgrade(dep, intel, current, latest.value)
            else forall t :: !InRangeUpgrade(dep, intel, current, t)
  {
    var versions := intel.packuments[dep.name];
    var latest := HighestIn(StableSorted(versions), dep.declared.range);
    LatestExactly(dep, versions);
    hide StableSorted, HighestIn, Greatest, Bitten, ClearsAll, FixExists;
    if latest.Some? {
      BittenExactly(intel, dep.name, latest.value);
      forall t | InRangeUpgrade(dep, intel, current, t) ensures Takes(latest, current, AdvisoriesFor(intel, dep.name)) {
        GreatestIsOne(dep, versions, true, t, latest.value);
        SameParsed(intel, dep.name, t, latest.value);
      }
    }
  }

  lemma MajorExactly(dep: Dep, intel: Intel, current: Version)
    requires dep.name in intel.packuments
    ensures var stable := StableSorted(intel.packuments[dep.name]);
            if TakesMajor(stable, current, AdvisoriesFor(intel, dep.name)) then MajorUpgrade(dep, intel, current, stable[|stable| - 1])
            else forall t :: !MajorUpgrade(dep, intel, current, t)
  {
    var versions := intel.packuments[dep.name];
    var stable := StableSorted(versions);
    TopExactly(dep, versions);
    hide StableSorted, Greatest, Bitten, ClearsAll, FixExists;
    if stable != [] {
      var top := stable[|stable| - 1];
      BittenExactly(intel, dep.name, top);
      forall t | MajorUpgrade(dep, intel, current, t) ensures TakesMajor(stable, current, AdvisoriesFor(intel, dep.name)) {
        GreatestIsOne(dep, versions, false, t, top);
        SameParsed(intel, dep.name, t, top);
      }
    }
  }

  /**
   What each dependency contributes, exactly: nothing but a note when its package or its
   current version is unknown; its maintenance items when no advisory bites.
   */
  lemma DepExactly(dep: Dep, intel: Intel, proposeNextMajor: bool)
    ensures dep.name !in intel.packuments ==> PlanDep(dep, intel, proposeNextMajor) == Plan([], [Stuck(dep.name, NoPackument)])
    ensures dep.name in intel.packuments && !InstalledInRange(dep) && (forall v :: !Eligible(dep, intel.packuments[dep.name], v)) ==>
              PlanDep(dep, intel, proposeNextMajor) == Plan([], [Stuck(dep.name, NothingInRange)])
    ensures dep.name in intel.packuments && ResolveCurrentVersion(dep, intel.packuments[dep.name]).Some? ==>
              var current := ResolveCurrentVersion(dep, intel.packuments[dep.name]).value;
              !Bitten(intel, dep.name, current) ==>
                && PlanDep(dep, intel, proposeNextMajor).unactionable == []
                && ProposedExactly(dep, intel, current, proposeNextMajor, PlanDep(dep, intel, proposeNextMajor).items)
  {
    if dep.name in intel.packuments {
      CurrentExactly(dep, intel.packuments[dep.name]);
      hide StableSorted, ResolveCurrentVersion, Maintenance, PlanFix, Active, ProposedExactly, Bitten, ClearsAll, Satisfies, AdvisoriesFor;
      var current := ResolveCurrentVersion(dep, intel.packuments[dep.name]);
      if current.Some? {
        BittenExactly(intel, dep.name, current.value);
        ActiveFacts(current.value, AdvisoriesFor(intel, dep.name));
        MaintenanceExactly(dep, intel, current.value, proposeNextMajor);
      }
    }
  }

  /** In the final plan: an unbitten dependency with an upgrade in range has it proposed. */
  lemma UpgradeIsProposed(deps: seq<Dep>, intel: Intel, proposeNextMajor: bool, collate: string -> int, dep: Dep, v: Version, t: Version)
    requires dep in deps && dep.name in intel.packuments && IsCurrent(dep, intel.packuments[dep.name], v) && !Bitten(intel, dep.name, v)
    requires InRangeUpgrade(dep, intel, v, t) || (proposeNextMajor && MajorUpgrade(dep, intel, v, t))
    ensures exists item :: item in PlanOf(deps, intel, proposeNextMajor, collate).items && item.name == dep.name
                           && item.current.parsed == v.parsed && item.target.parsed == t.parsed
                           && item.kind == if InRangeUpgrade(dep, intel, v, t) then Outdated else NextMajor
  {
    CurrentIsOne(dep, intel.packuments[dep.name], v);
    var current := ResolveCurrentVersion(dep, intel.packuments[dep.name]).value;
    SameParsed(intel, dep.name, current, v);
    SameUpgrade(dep, intel, current, v, t);
    DepExactly(dep, intel, proposeNextMajor);
    var items := PlanDep(dep, intel, proposeNextMajor).items;
    hide PlanDep, ResolveCurrentVersion, InRangeUpgrade, MajorUpgrade, IsCurrent, Bitten, FixExists, Satisfies, PlanOf;
    var kind := if InRangeUpgrade(dep, intel, v, t) then Outdated else NextMajor;
    var item :| item in items && item.kind == kind;
    SameTarget(dep, intel, current, item.target, t);
    var i :| 0 <= i < |deps| && deps[i] == dep;
    PlannedItem(deps, intel, proposeNextMajor, collate, i, item);
  }

  lemma SameUpgrade(dep: Dep, intel: Intel, a: Version, b: Version, t: Version)
    requires dep.name in intel.packuments && a.parsed == b.parsed
    ensures InRangeUpgrade(dep, intel, a, t) <==> InRangeUpgrade(dep, intel, b, t)
    ensures MajorUpgrade(dep, intel, a, t) <==> MajorUpgrade(dep, intel, b, t)
  {
    hide Greatest, Bitten;
  }

  lemma SameTarget(dep: Dep, intel: Intel, current: Version, t: Version, u: Version)
    requires dep.name in intel.packuments
    ensures InRangeUpgrade(dep, intel, current, t) && InRangeUpgrade(dep, intel, current, u) ==> t.parsed == u.parsed
    ensures MajorUpgrade(dep, intel, current, t) && MajorUpgrade(dep, intel, current, u) ==> t.parsed == u.parsed
  {
    hide Greatest, Bitten, Above;
    if Greatest(dep, intel.packuments[dep.name], true, t) && Greatest(dep, intel.packuments[dep.name], true, u) {
      GreatestIsOne(dep, intel.packuments[dep.name], true, t, u);
    }
    if Greatest(dep, intel.packuments[dep.name], false, t) && Greatest(dep, intel.packuments[dep.name], false, u) {
      GreatestIsOne(dep, intel.packuments[dep.name], false, t, u);
    }
  }

  lemma PlannedItem(deps: seq<Dep>, intel: Intel, proposeNextMajor: bool, collate: string -> int, i: nat, item: Item)
    requires i < |deps| && item in PlanDep(deps[i], intel, proposeNextMajor).items
    ensures item in PlanOf(deps, intel, proposeNextMajor, collate).items
  {
    SortFacts(ItemOrder(collate), AllItems(deps, intel, proposeNextMajor));
    ItemsComeFromDeps(deps, intel, proposeNextMajor);
    hide AllItems, PlanDep, Sort;
  }

  // ---------------------------------------------------------------------
  // The new range
  // ---------------------------------------------------------------------

  /** The new range keeps the style: it admits what that style of range at the target admits, and a pinned one the target alone. */
  lemma NewRangeExactly(dep: Dep, kind: Kind, current: Version, target: Version, breaking: bool, active: seq<Advisory>, v: Version)
    requires Stable(target) && v.parsed.Some?
    ensures var range, at := NewItem(dep, kind, current, target, breaking, active).newRange, target.parsed.value;
            && range.style == dep.declared.style
            && (Satisfies(v, range.range) <==>
                match dep.declared.style
                case CaretStyle => AtMost(at, v.parsed.value) && (CaretFixed(Exactly(at), v.parsed.value) || PrereleaseOf(v.parsed.value, CaretUpper(Exactly(at))))
                case TildeStyle => AtMost(at, v.parsed.value) && (TildeFixed(Exactly(at), v.parsed.value) || PrereleaseOf(v.parsed.value, TildeUpper(Exactly(at))))
                case OtherStyle => v.parsed.value == at)
  {
    var at, range := target.parsed.value, NewItem(dep, kind, current, target, breaking, active).newRange.range;
    assert Padded(Exactly(at)) == at;
    CaretMeaning(Exactly(at), v.parsed.value);
    TildeMeaning(Exactly(at), v.parsed.value);
    BareMeaning(Exactly(at), v.parsed.value);
    hide Admits, AtMost, CaretFixed, TildeFixed, PrereleaseOf, CaretUpper, TildeUpper;
    OneToken(range[0][0], v);
    assert range == [[range[0][0]]];
  }

  lemma OneToken(token: Token, v: Version)
    requires v.parsed.Some?
    ensures Satisfies(v, [[token]]) <==> Admits(token, v.parsed.value)
  {
    hide Admits;
    assert [[token]][0] == [token] && [token][0] == token;
    assert AdmitsAll([token], v.parsed.value) <==> Admits(token, v.parsed.value);
  }
}
