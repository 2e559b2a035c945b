/**
 The upgrade planner and the independent re-scan of what it chose. Ranges and versions
 come parsed; names are ordered by an arbitrary collation rank.
 */
module Planner {
  import opened Collections
  import opened Lexical
  import opened Semver
  import opened Sorting

  /** What the text of a declared range starts with. */
  datatype Style = CaretStyle | TildeStyle | OtherStyle

  datatype Declared = Declared(style: Style, range: Range)

  datatype Dep = Dep(name: string, section: string, declared: Declared, installed: Option<Version>)

  datatype Advisory = Advisory(id: string, vulnerable: Range)

  datatype Kind = Security | Outdated | NextMajor

  datatype Item = Item(
    name: string, section: string, kind: Kind, current: Version, currentRange: Declared,
    target: Version, newRange: Declared, breaking: bool, advisories: seq<Advisory>)

  datatype Reason = NoPackument | NothingInRange | NoFix(current: Version, active: seq<Advisory>)

  datatype Stuck = Stuck(name: string, reason: Reason)

  datatype Plan = Plan(items: seq<Item>, unactionable: seq<Stuck>)

  /** What the registry said: published versions and advisories by package name. */
  datatype Intel = Intel(packuments: map<string, seq<Version>>, advisories: map<string, seq<Advisory>>)

  // ---------------------------------------------------------------------
  // One dependency
  // ---------------------------------------------------------------------

  function StableSorted(versions: seq<Version>): seq<Version> {
    Sort(Ascending, Filter(Stable, versions))
  }

  /** Keep `^` and `~`; anything else is pinned to the target. */
  function PreserveRangeStyle(declared: Declared, target: SemVer): Declared {
    var token := match declared.style
      case CaretStyle => Caret(Exactly(target))
      case TildeStyle => Tilde(Exactly(target))
      case OtherStyle => Bare(Exactly(target));
    Declared(declared.style, [[token]])
  }

  /** The locked version while it satisfies the declared range, else the lowest stable one in range. */
  function ResolveCurrentVersion(dep: Dep, versions: seq<Version>): Option<Version> {
    if dep.installed.Some? && Satisfies(dep.installed.value, dep.declared.range) then dep.installed
    else LowestIn(StableSorted(versions), dep.declared.range)
  }

  function AdvisoriesFor(intel: Intel, name: string): seq<Advisory> {
    if name in intel.advisories then intel.advisories[name] else []
  }

  predicate Bites(a: Advisory, v: Version) {
    Satisfies(v, a.vulnerable)
  }

  predicate ClearsAll(v: Version, advisories: seq<Advisory>) {
    forall a :: a in advisories ==> !Bites(a, v)
  }

  function Active(current: Version, advisories: seq<Advisory>): seq<Advisory> {
    Filter(a => Bites(a, current), advisories)
  }

  predicate Above(v: Version, current: Version) {
    v.parsed.Some? && current.parsed.Some? && Compare(v.parsed.value, current.parsed.value) > 0
  }

  function MajorOf(v: Version): nat {
    if v.parsed.Some? then v.parsed.value.major else 0
  }

  function Candidates(stable: seq<Version>, current: Version, advisories: seq<Advisory>): seq<Version> {
    Filter(v => Above(v, current) && ClearsAll(v, advisories), stable)
  }

  function SameMajor(candidates: seq<Version>, current: Version): seq<Version> {
    Filter(v => MajorOf(v) == MajorOf(current), candidates)
  }

  function NewItem(dep: Dep, kind: Kind, current: Version, target: Version, breaking: bool, active: seq<Advisory>): Item
    requires target.parsed.Some?
  {
    Item(dep.name, dep.section, kind, current, dep.declared, target, PreserveRangeStyle(dep.declared, target.parsed.value), breaking, active)
  }

  predicate Takes(target: Option<Version>, current: Version, advisories: seq<Advisory>) {
    target.Some? && Above(target.value, current) && ClearsAll(target.value, advisories)
  }

  predicate TakesMajor(stable: seq<Version>, current: Version, advisories: seq<Advisory>) {
    && stable != [] && stable[|stable| - 1].parsed.Some?
    && MajorOf(stable[|stable| - 1]) > MajorOf(current) && ClearsAll(stable[|stable| - 1], advisories)
  }

  function Maintenance(dep: Dep, stable: seq<Version>, current: Version, advisories: seq<Advisory>, proposeNextMajor: bool): seq<Item> {
    var latest := HighestIn(stable, dep.declared.range);
    (if Takes(latest, current, advisories) then [NewItem(dep, Outdated, current, latest.value, false, [])] else [])
    + if proposeNextMajor && TakesMajor(stable, current, advisories)
      then [NewItem(dep, NextMajor, current, stable[|stable| - 1], true, [])] else []
  }

  /** What one dependency adds to the plan. */
  function PlanDep(dep: Dep, intel: Intel, proposeNextMajor: bool): Plan {
    if dep.name !in intel.packuments then Plan([], [Stuck(dep.name, NoPackument)])
    else
      var stable := StableSorted(intel.packuments[dep.name]);
      var current := ResolveCurrentVersion(dep, intel.packuments[dep.name]);
      if current.None? then Plan([], [Stuck(dep.name, NothingInRange)])
      else
        var advisories := AdvisoriesFor(intel, dep.name);
        var active := Active(current.value, advisories);
        if active == [] then Plan(Maintenance(dep, stable, current.value, advisories, proposeNextMajor), [])
        else PlanFix(dep, stable, current.value, advisories, active)
  }

  function PlanFix(dep: Dep, stable: seq<Version>, current: Version, advisories: seq<Advisory>, active: seq<Advisory>): Plan {
    var candidates := Candidates(stable, current, advisories);
    var sameMajor := SameMajor(candidates, current);
    CandidatesParse(stable, current, advisories);
    if candidates == [] then Plan([], [Stuck(dep.name, NoFix(current, active))])
    else
      assert candidates[0] in candidates && (sameMajor != [] ==> sameMajor[0] in sameMajor);
      var target := if sameMajor != [] then sameMajor[0] else candidates[0];
      Plan([NewItem(dep, Security, current, target, sameMajor == [], active)], [])
  }

  lemma CandidatesParse(stable: seq<Version>, current: Version, advisories: seq<Advisory>)
    ensures forall v :: v in Candidates(stable, current, advisories) ==> v in stable && Above(v, current) && ClearsAll(v, advisories)
    ensures forall v :: v in stable && Above(v, current) && ClearsAll(v, advisories) ==> v in Candidates(stable, current, advisories)
    ensures var candidates := Candidates(stable, current, advisories);
            forall v :: v in SameMajor(candidates, current) <==> v in candidates && MajorOf(v) == MajorOf(current)
  {
    FilterFacts(v => Above(v, current) && ClearsAll(v, advisories), stable);
    FilterFacts(v => MajorOf(v) == MajorOf(current), Candidates(stable, current, advisories));
  }

  // ---------------------------------------------------------------------
  // The plan
  // ---------------------------------------------------------------------

  function AllItems(deps: seq<Dep>, intel: Intel, proposeNextMajor: bool): seq<Item> {
    if deps == [] then []
    else AllItems(deps[..|deps| - 1], intel, proposeNextMajor) + PlanDep(deps[|deps| - 1], intel, proposeNextMajor).items
  }

  function AllStuck(deps: seq<Dep>, intel: Intel, proposeNextMajor: bool): seq<Stuck> {
    if deps == [] then []
    else AllStuck(deps[..|deps| - 1], intel, proposeNextMajor) + PlanDep(deps[|deps| - 1], intel, proposeNextMajor).unactionable
  }

  function KindRank(kind: Kind): nat {
    match kind
    case Security => 0
    case Outdated => 1
    case NextMajor => 2
  }

  predicate ItemLe(collate: string -> int, a: Item, b: Item) {
    KindRank(a.kind) < KindRank(b.kind) || (a.kind == b.kind && collate(a.name) <= collate(b.name))
  }

  function ItemOrder(collate: string -> int): (Item, Item) -> bool {
    (a, b) => ItemLe(collate, a, b)
  }

  function PlanOf(deps: seq<Dep>, intel: Intel, proposeNextMajor: bool, collate: string -> int): Plan {
    Plan(Sort(ItemOrder(collate), AllItems(deps, intel, proposeNextMajor)), AllStuck(deps, intel, proposeNextMajor))
  }

  method BuildPlan(deps: seq<Dep>, intel: Intel, proposeNextMajor: bool, collate: string -> int) returns (plan: Plan)
    ensures plan == PlanOf(deps, intel, proposeNextMajor, collate)
  {
    hide AllItems, AllStuck, Sort, HighestIn, LowestIn, Active, Candidates, SameMajor, StableSorted, ClearsAll;
    var items: seq<Item> := [];
    var unactionable: seq<Stuck> := [];
    NothingPlanned(intel, proposeNextMajor);
    assert deps[..0] == [];
    var i := 0;
    while i < |deps|
      invariant 0 <= i <= |deps|
      invariant items == AllItems(deps[..i], intel, proposeNextMajor) && unactionable == AllStuck(deps[..i], intel, proposeNextMajor)
    {
      var dep := deps[i];
      OneMoreDep(deps, intel, proposeNextMajor, i);
      i := i + 1;
      if dep.name !in intel.packuments {
        unactionable := unactionable + [Stuck(dep.name, NoPackument)];
        continue;
      }
      var packument := intel.packuments[dep.name];
      var stable := StableSorted(packument);
      var resolved := ResolveCurrentVersion(dep, packument);
      if resolved.None? {
        unactionable := unactionable + [Stuck(dep.name, NothingInRange)];
        continue;
      }
      var current := resolved.value;
      var advisories := AdvisoriesFor(intel, dep.name);
      var active := Active(current, advisories);
      if active != [] {
        CandidatesParse(stable, current, advisories);
        var candidates := Candidates(stable, current, advisories);
        if candidates == [] {
          unactionable := unactionable + [Stuck(dep.name, NoFix(current, active))];
          continue;
        }
        var sameMajor := SameMajor(candidates, current);
        assert candidates[0] in candidates && (sameMajor != [] ==> sameMajor[0] in sameMajor);
        var target := if sameMajor != [] then sameMajor[0] else candidates[0];
        items := items + [NewItem(dep, Security, current, target, sameMajor == [], active)];
        continue;
      }
      var latest := MaxSatisfying(stable, dep.declared.range);
      if latest.Some? && Above(latest.value, current) && ClearsAll(latest.value, advisories) {
        items := items + [NewItem(dep, Outdated, current, latest.value, false, [])];
      }
      if proposeNextMajor && TakesMajor(stable, current, advisories) {
        items := items + [NewItem(dep, NextMajor, current, stable[|stable| - 1], true, [])];
      }
    }
    assert deps[..i] == deps;
    plan := Plan(Sort(ItemOrder(collate), items), unactionable);
  }

  lemma NothingPlanned(intel: Intel, proposeNextMajor: bool)
    ensures AllItems([], intel, proposeNextMajor) == [] && AllStuck([], intel, proposeNextMajor) == []
  {
  }

  lemma OneMoreDep(deps: seq<Dep>, intel: Intel, proposeNextMajor: bool, i: nat)
    requires i < |deps|
    ensures AllItems(deps[..i + 1], intel, proposeNextMajor) ==
            AllItems(deps[..i], intel, proposeNextMajor) + PlanDep(deps[i], intel, proposeNextMajor).items
    ensures AllStuck(deps[..i + 1], intel, proposeNextMajor) ==
            AllStuck(deps[..i], intel, proposeNextMajor) + PlanDep(deps[i], intel, proposeNextMajor).unactionable
  {
    assert deps[..i + 1][..i] == deps[..i] && deps[..i + 1][i] == deps[i];
  }

  // ---------------------------------------------------------------------
  // What a security item is
  // ---------------------------------------------------------------------

  /** A published, stable version above the current one that no known advisory bites. */
  predicate Fixes(intel: Intel, name: string, current: Version, v: Version) {
    && name in intel.packuments && v in intel.packuments[name] && Stable(v)
    && Above(v, current) && ClearsAll(v, AdvisoriesFor(intel, name))
  }

  ghost predicate FixExists(intel: Intel, name: string, current: Version) {
    exists v :: Fixes(intel, name, current, v)
  }

  ghost predicate SameMajorFixExists(intel: Intel, name: string, current: Version) {
    exists v :: Fixes(intel, name, current, v) && MajorOf(v) == MajorOf(current)
  }

  /** The dependency resolves to a version some known advisory bites. */
  predicate Vulnerable(dep: Dep, intel: Intel) {
    && dep.name in intel.packuments
    && ResolveCurrentVersion(dep, intel.packuments[dep.name]).Some?
    && !ClearsAll(ResolveCurrentVersion(dep, intel.packuments[dep.name]).value, AdvisoriesFor(intel, dep.name))
  }

  lemma StableSortedFacts(versions: seq<Version>)
    ensures Sorted(Ascending, StableSorted(versions))
    ensures forall v :: v in StableSorted(versions) <==> v in versions && Stable(v)
  {
    AscendingIsPreorder();
    SortSorted(Ascending, Filter(Stable, versions));
    SortFacts(Ascending, Filter(Stable, versions));
    FilterFacts(Stable, versions);
  }

  lemma {:induction false} FilterSorted(keep: Version -> bool, s: seq<Version>)
    requires Sorted(Ascending, s)
    ensures Sorted(Ascending, Filter(keep, s))
  {
    hide Ascending;
    if s != [] {
      var front, last := s[..|s| - 1], s[|s| - 1];
      FilterSorted(keep, front);
      FilterFacts(keep, front);
      forall i | 0 <= i < |Filter(keep, front)| ensures Ascending(Filter(keep, front)[i], last) {
        assert Filter(keep, front)[i] in front;
        var k :| 0 <= k < |front| && front[k] == Filter(keep, front)[i];
        assert Ascending(s[k], s[|s| - 1]);
      }
    }
  }

  lemma FirstIsLeast(s: seq<Version>, v: Version)
    requires Sorted(Ascending, s) && v in s
    ensures Ascending(s[0], v)
  {
    SelfAscending(v);
    var i :| 0 <= i < |s| && s[i] == v;
    assert i == 0 || Ascending(s[0], s[i]);
  }

  lemma ActiveFacts(current: Version, advisories: seq<Advisory>)
    ensures forall a :: a in Active(current, advisories) <==> a in advisories && Bites(a, current)
    ensures Active(current, advisories) == [] <==> ClearsAll(current, advisories)
  {
    FilterFacts(a => Bites(a, current), advisories);
    hide Bites;
    var active := Active(current, advisories);
    if active != [] {
      assert active[0] in active;
    }
  }

  lemma CurrentParses(dep: Dep, versions: seq<Version>)
    ensures var current := ResolveCurrentVersion(dep, versions);
            current.Some? ==> Satisfies(current.value, dep.declared.range) && current.value.parsed.Some?
  {
    LowestIsLeast(StableSorted(versions), dep.declared.range);
  }

  /** The candidate list holds exactly the fixes, in ascending order. */
  lemma CandidatesAreFixes(intel: Intel, name: string, current: Version)
    requires name in intel.packuments
    ensures var candidates := Candidates(StableSorted(intel.packuments[name]), current, AdvisoriesFor(intel, name));
            && Sorted(Ascending, candidates) && Sorted(Ascending, SameMajor(candidates, current))
            && (forall v :: v in candidates <==> Fixes(intel, name, current, v))
            && (forall v :: v in SameMajor(candidates, current) <==> Fixes(intel, name, current, v) && MajorOf(v) == MajorOf(current))
  {
    var stable, advisories := StableSorted(intel.packuments[name]), AdvisoriesFor(intel, name);
    StableSortedFacts(intel.packuments[name]);
    CandidatesParse(stable, current, advisories);
    FilterSorted(v => Above(v, current) && ClearsAll(v, advisories), stable);
    FilterSorted(v => MajorOf(v) == MajorOf(current), Candidates(stable, current, advisories));
    hide StableSorted, Sorted, Above, ClearsAll;
  }

  /** The nearest fix: lowest within the current major if there is one there, else lowest overall and breaking. */
  ghost predicate NearestFix(intel: Intel, item: Item) {
    && Fixes(intel, item.name, item.current, item.target)
    && (item.breaking <==> !SameMajorFixExists(intel, item.name, item.current))
    && (forall v :: Fixes(intel, item.name, item.current, v) && (item.breaking || MajorOf(v) == MajorOf(item.current)) ==>
                      AtMost(item.target.parsed.value, v.parsed.value))
    && (!item.breaking ==> MajorOf(item.target) == MajorOf(item.current))
  }

  lemma RangeAdmitsTarget(dep: Dep, kind: Kind, current: Version, target: Version, breaking: bool, active: seq<Advisory>)
    requires Stable(target)
    ensures Satisfies(target, NewItem(dep, kind, current, target, breaking, active).newRange.range)
  {
    AdmitsItself(target.parsed.value);
    var range := PreserveRangeStyle(dep.declared, target.parsed.value).range;
    assert range[0] == [range[0][0]];
    hide Admits;
    assert AdmitsAll(range[0], target.parsed.value);
  }

  lemma FixOf(dep: Dep, intel: Intel, current: Version, active: seq<Advisory>)
    requires dep.name in intel.packuments
    ensures var plan := PlanFix(dep, StableSorted(intel.packuments[dep.name]), current, AdvisoriesFor(intel, dep.name), active);
            if FixExists(intel, dep.name, current) then
              && |plan.items| == 1 && plan.unactionable == [] && plan.items[0].kind == Security
              && plan.items[0].name == dep.name && plan.items[0].current == current && plan.items[0].advisories == active
              && NearestFix(intel, plan.items[0]) && Satisfies(plan.items[0].target, plan.items[0].newRange.range)
            else plan.items == [] && plan.unactionable == [Stuck(dep.name, NoFix(current, active))]
  {
    hide StableSorted, Candidates, SameMajor, AdvisoriesFor, Sorted, Satisfies, PreserveRangeStyle, ClearsAll, Above;
    var stable, advisories := StableSorted(intel.packuments[dep.name]), AdvisoriesFor(intel, dep.name);
    var candidates := Candidates(stable, current, advisories);
    var sameMajor := SameMajor(candidates, current);
    CandidatesAreFixes(intel, dep.name, current);
    if candidates != [] {
      assert candidates[0] in candidates;
      if sameMajor == [] {
        forall v | v in candidates ensures Ascending(candidates[0], v) { FirstIsLeast(candidates, v); }
        RangeAdmitsTarget(dep, Security, current, candidates[0], true, active);
      } else {
        assert sameMajor[0] in sameMajor;
        forall v | v in sameMajor ensures Ascending(sameMajor[0], v) { FirstIsLeast(sameMajor, v); }
        RangeAdmitsTarget(dep, Security, current, sameMajor[0], false, active);
      }
    }
  }

  /**
   A vulnerable dependency becomes exactly one security item, to the nearest fix and with a
   range that admits it, or, exactly when no fix is published, exactly one unactionable entry.
   */
  lemma VulnerableIsPlanned(dep: Dep, intel: Intel, proposeNextMajor: bool)
    requires Vulnerable(dep, intel)
    ensures var plan, current := PlanDep(dep, intel, proposeNextMajor), ResolveCurrentVersion(dep, intel.packuments[dep.name]).value;
            if FixExists(intel, dep.name, current) then
              && |plan.items| == 1 && plan.unactionable == [] && plan.items[0].kind == Security
              && plan.items[0].name == dep.name && plan.items[0].current == current
              && (forall a :: a in plan.items[0].advisories <==> a in AdvisoriesFor(intel, dep.name) && Bites(a, current))
              && NearestFix(intel, plan.items[0]) && Satisfies(plan.items[0].target, plan.items[0].newRange.range)
            else plan.items == [] && |plan.unactionable| == 1 && plan.unactionable[0].name == dep.name && plan.unactionable[0].reason.NoFix?
  {
    var current := ResolveCurrentVersion(dep, intel.packuments[dep.name]).value;
    var advisories := AdvisoriesFor(intel, dep.name);
    ActiveFacts(current, advisories);
    FixOf(dep, intel, current, Active(current, advisories));
    hide PlanFix, Active, ResolveCurrentVersion, StableSorted, NearestFix, FixExists, ClearsAll, Bites, Satisfies;
  }

  /** Any other dependency gets no security item and no "no fix" entry. */
  lemma OthersAreNot(dep: Dep, intel: Intel, proposeNextMajor: bool)
    requires !Vulnerable(dep, intel)
    ensures var plan := PlanDep(dep, intel, proposeNextMajor);
            && (forall i :: 0 <= i < |plan.items| ==> plan.items[i].kind != Security)
            && (forall i :: 0 <= i < |plan.unactionable| ==> !plan.unactionable[i].reason.NoFix?)
  {
    if dep.name in intel.packuments && ResolveCurrentVersion(dep, intel.packuments[dep.name]).Some? {
      ActiveFacts(ResolveCurrentVersion(dep, intel.packuments[dep.name]).value, AdvisoriesFor(intel, dep.name));
    }
    hide Active, ResolveCurrentVersion, StableSorted, ClearsAll, HighestIn, Takes, TakesMajor, PlanFix;
  }

  // ---------------------------------------------------------------------
  // What every item is
  // ---------------------------------------------------------------------

  /** Never into a known hole, never down, never unpublished, and the new range admits the target. */
  predicate SafeItem(intel: Intel, item: Item) {
    Fixes(intel, item.name, item.current, item.target) && Satisfies(item.target, item.newRange.range)
  }

  lemma HighestStable(versions: seq<Version>, range: Range)
    ensures var r := HighestIn(StableSorted(versions), range);
            r.Some? ==> r.value in versions && Stable(r.value) && Satisfies(r.value, range)
                        && forall v :: v in versions && Stable(v) && Satisfies(v, range) ==> AtMost(v.parsed.value, r.value.parsed.value)
  {
    StableSortedFacts(versions);
    HighestIsGreatest(StableSorted(versions), range);
    hide StableSorted, HighestIn, Satisfies;
  }

  lemma MajorIsAbove(v: Version, current: Version)
    requires v.parsed.Some? && current.parsed.Some? && MajorOf(v) > MajorOf(current)
    ensures Above(v, current)
  {
  }

  /** In-range upgrades go to the greatest stable version in the declared range, next-major ones to the greatest of all. */
  predicate MaintenanceTarget(dep: Dep, intel: Intel, item: Item)
    requires dep.name in intel.packuments && item.target.parsed.Some?
  {
    && item.kind != Security && (item.kind == Outdated ==> Satisfies(item.target, dep.declared.range))
    && forall v :: v in intel.packuments[dep.name] && Stable(v) && (item.kind == Outdated ==> Satisfies(v, dep.declared.range)) ==>
                     AtMost(v.parsed.value, item.target.parsed.value)
  }

  predicate GoodItem(dep: Dep, intel: Intel, item: Item)
    requires dep.name in intel.packuments
  {
    item.name == dep.name && SafeItem(intel, item) && item.target.parsed.Some? && MaintenanceTarget(dep, intel, item)
  }

  lemma OutdatedIsGood(dep: Dep, intel: Intel, current: Version)
    requires dep.name in intel.packuments
    requires Takes(HighestIn(StableSorted(intel.packuments[dep.name]), dep.declared.range), current, AdvisoriesFor(intel, dep.name))
    ensures var latest := HighestIn(StableSorted(intel.packuments[dep.name]), dep.declared.range).value;
            GoodItem(dep, intel, NewItem(dep, Outdated, current, latest, false, []))
  {
    HighestStable(intel.packuments[dep.name], dep.declared.range);
    var latest := HighestIn(StableSorted(intel.packuments[dep.name]), dep.declared.range).value;
    hide StableSorted, HighestIn, Satisfies, AdvisoriesFor, ClearsAll, Above;
    RangeAdmitsTarget(dep, Outdated, current, latest, false, []);
  }

  lemma NextMajorIsGood(dep: Dep, intel: Intel, current: Version)
    requires dep.name in intel.packuments && current.parsed.Some?
    requires TakesMajor(StableSorted(intel.packuments[dep.name]), current, AdvisoriesFor(intel, dep.name))
    ensures var stable := StableSorted(intel.packuments[dep.name]);
            GoodItem(dep, intel, NewItem(dep, NextMajor, current, stable[|stable| - 1], true, []))
  {
    var stable := StableSorted(intel.packuments[dep.name]);
    StableSortedFacts(intel.packuments[dep.name]);
    var last := stable[|stable| - 1];
    assert last in stable;
    MajorIsAbove(last, current);
    RangeAdmitsTarget(dep, NextMajor, current, last, true, []);
    hide StableSorted, Satisfies, AdvisoriesFor, ClearsAll, Above;
    forall v | v in stable ensures Ascending(v, last) { LastIsGreatestVersion(stable, v); }
  }

  lemma LastIsGreatestVersion(s: seq<Version>, v: Version)
    requires Sorted(Ascending, s) && v in s
    ensures Ascending(v, s[|s| - 1])
  {
    AscendingIsPreorder();
    LastIsGreatest(Ascending, s, v);
  }

  lemma MaintenanceIsGood(dep: Dep, intel: Intel, current: Version, proposeNextMajor: bool)
    requires dep.name in intel.packuments && current.parsed.Some?
    ensures forall item :: item in Maintenance(dep, StableSorted(intel.packuments[dep.name]), current, AdvisoriesFor(intel, dep.name), proposeNextMajor) ==>
                             GoodItem(dep, intel, item)
  {
    var stable, advisories := StableSorted(intel.packuments[dep.name]), AdvisoriesFor(intel, dep.name);
    if Takes(HighestIn(stable, dep.declared.range), current, advisories) {
      OutdatedIsGood(dep, intel, current);
    }
    if TakesMajor(stable, current, advisories) {
      NextMajorIsGood(dep, intel, current);
    }
    hide StableSorted, HighestIn, AdvisoriesFor, GoodItem, NewItem;
  }

  lemma DepItemsAreSafe(dep: Dep, intel: Intel, proposeNextMajor: bool)
    ensures forall item :: item in PlanDep(dep, intel, proposeNextMajor).items ==> item.name == dep.name && SafeItem(intel, item)
  {
    if dep.name in intel.packuments && ResolveCurrentVersion(dep, intel.packuments[dep.name]).Some? {
      var current := ResolveCurrentVersion(dep, intel.packuments[dep.name]).value;
      var advisories := AdvisoriesFor(intel, dep.name);
      CurrentParses(dep, intel.packuments[dep.name]);
      MaintenanceIsGood(dep, intel, current, proposeNextMajor);
      hide MaintenanceTarget;
      FixOf(dep, intel, current, Active(current, advisories));
      hide Maintenance, PlanFix, ResolveCurrentVersion, StableSorted, Active, Fixes, Satisfies, FixExists;
    }
  }

  lemma {:induction false} ItemsComeFromDeps(deps: seq<Dep>, intel: Intel, proposeNextMajor: bool)
    ensures forall item :: item in AllItems(deps, intel, proposeNextMajor) <==>
                             exists i :: 0 <= i < |deps| && item in PlanDep(deps[i], intel, proposeNextMajor).items
  {
    hide PlanDep;
    if deps != [] {
      var front, last := deps[..|deps| - 1], deps[|deps| - 1];
      ItemsComeFromDeps(front, intel, proposeNextMajor);
      assert deps == front + [last];
      forall item | item in AllItems(deps, intel, proposeNextMajor)
        ensures exists i :: 0 <= i < |deps| && item in PlanDep(deps[i], intel, proposeNextMajor).items
      {
        if item in AllItems(front, intel, proposeNextMajor) {
          var i :| 0 <= i < |front| && item in PlanDep(front[i], intel, proposeNextMajor).items;
          assert deps[i] == front[i];
        } else {
          assert item in PlanDep(deps[|deps| - 1], intel, proposeNextMajor).items;
        }
      }
      forall i, item | 0 <= i < |deps| && item in PlanDep(deps[i], intel, proposeNextMajor).items
        ensures item in AllItems(deps, intel, proposeNextMajor)
      {
        assert i < |front| ==> front[i] == deps[i];
      }
    }
  }

  /** Every proposed upgrade, of whatever kind. */
  lemma PlanIsSafe(deps: seq<Dep>, intel: Intel, proposeNextMajor: bool, collate: string -> int)
    ensures forall item :: item in PlanOf(deps, intel, proposeNextMajor, collate).items ==> SafeItem(intel, item)
  {
    SortFacts(ItemOrder(collate), AllItems(deps, intel, proposeNextMajor));
    ItemsComeFromDeps(deps, intel, proposeNextMajor);
    hide AllItems, Sort, PlanDep, SafeItem;
    forall item | item in AllItems(deps, intel, proposeNextMajor) ensures SafeItem(intel, item) {
      var i :| 0 <= i < |deps| && item in PlanDep(deps[i], intel, proposeNextMajor).items;
      DepItemsAreSafe(deps[i], intel, proposeNextMajor);
    }
  }

  /** Security first, then maintenance, then majors; each by name. */
  lemma PlanIsOrdered(deps: seq<Dep>, intel: Intel, proposeNextMajor: bool, collate: string -> int)
    ensures var items := PlanOf(deps, intel, proposeNextMajor, collate).items;
            forall i, j :: 0 <= i < j < |items| ==> ItemLe(collate, items[i], items[j])
  {
    var order := ItemOrder(collate);
    assert TotalPreorder(order) by {
      forall a, b ensures order(a, b) || order(b, a) {}
      forall a, b, c | order(a, b) && order(b, c) ensures order(a, c) {}
    }
    SortSorted(order, AllItems(deps, intel, proposeNextMajor));
    var items := PlanOf(deps, intel, proposeNextMajor, collate).items;
    forall i, j | 0 <= i < j < |items| ensures ItemLe(collate, items[i], items[j]) {
      assert order(items[i], items[j]);
    }
  }

  // ---------------------------------------------------------------------
  // Nothing is dropped or doubled
  // ---------------------------------------------------------------------

  function SecurityItems(items: seq<Item>, name: string): seq<Item> {
    Filter((item: Item) => item.kind == Security && item.name == name, items)
  }

  function NoFixes(unactionable: seq<Stuck>, name: string): seq<Stuck> {
    Filter((s: Stuck) => s.reason.NoFix? && s.name == name, unactionable)
  }

  function VulnerableDeps(deps: seq<Dep>, intel: Intel, name: string): seq<Dep> {
    Filter((dep: Dep) => Vulnerable(dep, intel) && dep.name == name, deps)
  }

  lemma OneDepCounts(dep: Dep, intel: Intel, proposeNextMajor: bool, name: string)
    ensures var plan := PlanDep(dep, intel, proposeNextMajor);
            |SecurityItems(plan.items, name)| + |NoFixes(plan.unactionable, name)| ==
            if Vulnerable(dep, intel) && dep.name == name then 1 else 0
  {
    var plan := PlanDep(dep, intel, proposeNextMajor);
    if Vulnerable(dep, intel) {
      VulnerableIsPlanned(dep, intel, proposeNextMajor);
    } else {
      OthersAreNot(dep, intel, proposeNextMajor);
    }
    hide PlanDep, Vulnerable, NearestFix, FixExists, Satisfies, Bites, ResolveCurrentVersion;
    NoneKept((item: Item) => item.kind == Security && item.name == name, plan.items);
    NoneKept((s: Stuck) => s.reason.NoFix? && s.name == name, plan.unactionable);
  }

  /** A filter that rejects everything keeps nothing; one element is kept or not. */
  lemma {:induction false} NoneKept<T>(keep: T -> bool, s: seq<T>)
    ensures (forall i :: 0 <= i < |s| ==> !keep(s[i])) ==> Filter(keep, s) == []
    ensures |s| == 1 && keep(s[0]) ==> Filter(keep, s) == s
  {
    if s != [] {
      NoneKept(keep, s[..|s| - 1]);
      assert Filter(keep, s[..0]) == [];
      assert s == s[..|s| - 1] + [s[|s| - 1]];
    }
  }

  lemma {:induction false} AllDepsCount(deps: seq<Dep>, intel: Intel, proposeNextMajor: bool, name: string)
    ensures |SecurityItems(AllItems(deps, intel, proposeNextMajor), name)| + |NoFixes(AllStuck(deps, intel, proposeNextMajor), name)| ==
            |VulnerableDeps(deps, intel, name)|
  {
    hide PlanDep, Vulnerable;
    if deps != [] {
      var front, last := deps[..|deps| - 1], deps[|deps| - 1];
      AllDepsCount(front, intel, proposeNextMajor, name);
      OneDepCounts(last, intel, proposeNextMajor, name);
      var plan := PlanDep(last, intel, proposeNextMajor);
      FilterConcat((item: Item) => item.kind == Security && item.name == name, AllItems(front, intel, proposeNextMajor), plan.items);
      FilterConcat((s: Stuck) => s.reason.NoFix? && s.name == name, AllStuck(front, intel, proposeNextMajor), plan.unactionable);
    }
  }

  /** Per package name, security items and "no fix" entries together are as many as the vulnerable dependencies. */
  lemma NothingDroppedOrDoubled(deps: seq<Dep>, intel: Intel, proposeNextMajor: bool, collate: string -> int, name: string)
    ensures var plan := PlanOf(deps, intel, proposeNextMajor, collate);
            |SecurityItems(plan.items, name)| + |NoFixes(plan.unactionable, name)| == |VulnerableDeps(deps, intel, name)|
  {
    var all := AllItems(deps, intel, proposeNextMajor);
    AllDepsCount(deps, intel, proposeNextMajor, name);
    SortFacts(ItemOrder(collate), all);
    FilterCount((item: Item) => item.kind == Security && item.name == name, all, Sort(ItemOrder(collate), all));
  }

  /** The security item a vulnerable dependency calls for. */
  ghost predicate SecurityItemFor(dep: Dep, intel: Intel, item: Item) {
    && Vulnerable(dep, intel) && item.kind == Security && item.name == dep.name
    && item.current == ResolveCurrentVersion(dep, intel.packuments[dep.name]).value
    && NearestFix(intel, item) && Satisfies(item.target, item.newRange.range)
  }

  /** Some version fixes the dependency. */
  ghost predicate Fixable(dep: Dep, intel: Intel)
    requires Vulnerable(dep, intel)
  {
    FixExists(intel, dep.name, ResolveCurrentVersion(dep, intel.packuments[dep.name]).value)
  }

  lemma {:induction false} StuckComeFromDeps(deps: seq<Dep>, intel: Intel, proposeNextMajor: bool, i: nat)
    requires i < |deps|
    ensures forall s :: s in PlanDep(deps[i], intel, proposeNextMajor).unactionable ==> s in AllStuck(deps, intel, proposeNextMajor)
    decreases |deps|
  {
    hide PlanDep;
    if i < |deps| - 1 {
      StuckComeFromDeps(deps[..|deps| - 1], intel, proposeNextMajor, i);
    }
  }

  lemma DepSecurity(dep: Dep, intel: Intel, proposeNextMajor: bool)
    ensures var plan := PlanDep(dep, intel, proposeNextMajor);
            && (forall item :: item in plan.items && item.kind == Security ==> SecurityItemFor(dep, intel, item))
            && (Vulnerable(dep, intel) && Fixable(dep, intel) ==> exists item :: item in plan.items && SecurityItemFor(dep, intel, item))
            && (Vulnerable(dep, intel) && !Fixable(dep, intel) ==>
                  exists s :: s in plan.unactionable && s.name == dep.name && s.reason.NoFix?)
  {
    var plan := PlanDep(dep, intel, proposeNextMajor);
    hide PlanDep, Vulnerable, NearestFix, FixExists, Satisfies, Bites, ResolveCurrentVersion;
    if Vulnerable(dep, intel) {
      VulnerableIsPlanned(dep, intel, proposeNextMajor);
      if Fixable(dep, intel) {
        assert plan.items[0] in plan.items && SecurityItemFor(dep, intel, plan.items[0]);
      } else {
        assert plan.unactionable[0] in plan.unactionable;
      }
    } else {
      OthersAreNot(dep, intel, proposeNextMajor);
    }
  }

  /**
   The final plan answers every vulnerable dependency that can be fixed with its nearest fix
   and every other one with a "no fix" entry, and holds no security item but these.
   */
  lemma PlanAnswersEveryVulnerability(deps: seq<Dep>, intel: Intel, proposeNextMajor: bool, collate: string -> int)
    ensures var plan := PlanOf(deps, intel, proposeNextMajor, collate);
            && (forall dep :: dep in deps && Vulnerable(dep, intel) && Fixable(dep, intel) ==>
                                exists item :: item in plan.items && SecurityItemFor(dep, intel, item))
            && (forall dep :: dep in deps && Vulnerable(dep, intel) && !Fixable(dep, intel) ==>
                                exists s :: s in plan.unactionable && s.name == dep.name && s.reason.NoFix?)
            && (forall item :: item in plan.items && item.kind == Security ==>
                                 exists dep :: dep in deps && SecurityItemFor(dep, intel, item))
  {
    var all, plan := AllItems(deps, intel, proposeNextMajor), PlanOf(deps, intel, proposeNextMajor, collate);
    SortFacts(ItemOrder(collate), all);
    ItemsComeFromDeps(deps, intel, proposeNextMajor);
    hide AllItems, AllStuck, Sort, PlanDep, SecurityItemFor, Fixable, Vulnerable;
    forall item | item in all && item.kind == Security ensures exists dep :: dep in deps && SecurityItemFor(dep, intel, item) {
      var i :| 0 <= i < |deps| && item in PlanDep(deps[i], intel, proposeNextMajor).items;
      DepSecurity(deps[i], intel, proposeNextMajor);
      assert deps[i] in deps;
    }
    forall dep | dep in deps && Vulnerable(dep, intel)
      ensures Fixable(dep, intel) ==> exists item :: item in all && SecurityItemFor(dep, intel, item)
      ensures !Fixable(dep, intel) ==> exists s :: s in plan.unactionable && s.name == dep.name && s.reason.NoFix?
    {
      var i :| 0 <= i < |deps| && deps[i] == dep;
      DepSecurity(dep, intel, proposeNextMajor);
      StuckComeFromDeps(deps, intel, proposeNextMajor, i);
    }
  }

  // ---------------------------------------------------------------------
  // The independent re-scan
  // ---------------------------------------------------------------------

  datatype Choice = Choice(name: string, version: Version)

  /** The version checked for each package: the last one chosen for it. */
  function VersionOf(chosen: seq<Choice>): map<string, Version> {
    if chosen == [] then map[]
    else VersionOf(chosen[..|chosen| - 1])[chosen[|chosen| - 1].name := chosen[|chosen| - 1].version]
  }

  datatype Answer = Answer(name: string, advisories: seq<Advisory>)

  predicate StillBitten(answers: seq<Answer>, versionOf: map<string, Version>, id: string) {
    exists i, k :: 0 <= i < |answers| && 0 <= k < |answers[i].advisories| && BitesChosen(answers[i], k, versionOf, id)
  }

  predicate BitesChosen(answer: Answer, k: nat, versionOf: map<string, Version>, id: string)
    requires k < |answer.advisories|
  {
    answer.name in versionOf && answer.advisories[k].id == id && Bites(answer.advisories[k], versionOf[answer.name])
  }

  predicate BittenWithin(answer: Answer, k: nat, versionOf: map<string, Version>, id: string)
    requires k <= |answer.advisories|
  {
    exists n :: 0 <= n < k && BitesChosen(answer, n, versionOf, id)
  }

  lemma OneMoreAdvisory(answer: Answer, k: nat, versionOf: map<string, Version>, id: string)
    requires k < |answer.advisories|
    ensures BittenWithin(answer, k + 1, versionOf, id) <==> BittenWithin(answer, k, versionOf, id) || BitesChosen(answer, k, versionOf, id)
  {
    hide BitesChosen;
    if BitesChosen(answer, k, versionOf, id) {
      assert BittenWithin(answer, k + 1, versionOf, id);
    }
  }

  predicate IdOrder(a: string, b: string) {
    a == b || Before(CharLess, a, b)
  }

  /** The ids of `beforeIds` whose advisories, as the registry answers now, bite a chosen version. */
  method ReScanCleared(answers: seq<Answer>, chosen: seq<Choice>, beforeIds: set<string>) returns (ids: seq<string>)
    ensures forall id :: id in ids <==> id in beforeIds && StillBitten(answers, VersionOf(chosen), id)
    ensures forall i, j :: 0 <= i < j < |ids| ==> ids[i] != ids[j] && IdOrder(ids[i], ids[j])
  {
    hide Before, Satisfies;
    if chosen == [] {
      return [];
    }
    var versionOf := VersionOf(chosen);
    var still: seq<string> := [];
    for i := 0 to |answers|
      invariant forall id :: id in still <==> StillBitten(answers[..i], versionOf, id)
    {
      ghost var before := still;
      var answer := answers[i];
      if answer.name in versionOf {
        for k := 0 to |answer.advisories|
          invariant forall id :: id in still <==> id in before || BittenWithin(answer, k, versionOf, id)
        {
          var a := answer.advisories[k];
          forall id ensures BittenWithin(answer, k + 1, versionOf, id) <==>
                              BittenWithin(answer, k, versionOf, id) || (id == a.id && Bites(a, versionOf[answer.name])) {
            OneMoreAdvisory(answer, k, versionOf, id);
          }
          if Bites(a, versionOf[answer.name]) {
            still := still + [a.id];
          }
        }
      }
      OneMoreAnswer(answers, versionOf, i);
    }
    assert answers[..|answers|] == answers;
    ids := SortedDistinct(still, beforeIds);
  }

  lemma OneMoreAnswer(answers: seq<Answer>, versionOf: map<string, Version>, i: nat)
    requires i < |answers|
    ensures forall id :: StillBitten(answers[..i + 1], versionOf, id) <==>
                           || StillBitten(answers[..i], versionOf, id)
                           || BittenWithin(answers[i], |answers[i].advisories|, versionOf, id)
  {
    hide Bites;
    var more, less := answers[..i + 1], answers[..i];
    assert more[i] == answers[i] && forall j :: 0 <= j < i ==> more[j] == less[j];
    forall id ensures StillBitten(more, versionOf, id) <==>
                        StillBitten(less, versionOf, id) || BittenWithin(answers[i], |answers[i].advisories|, versionOf, id) {
      if StillBitten(more, versionOf, id) {
        var j, k :| 0 <= j < |more| && 0 <= k < |more[j].advisories| && BitesChosen(more[j], k, versionOf, id);
        assert j < i ==> BitesChosen(less[j], k, versionOf, id);
      }
      if StillBitten(less, versionOf, id) {
        var j, k :| 0 <= j < |less| && 0 <= k < |less[j].advisories| && BitesChosen(less[j], k, versionOf, id);
        assert BitesChosen(more[j], k, versionOf, id);
      }
      if n :| 0 <= n < |answers[i].advisories| && BitesChosen(answers[i], n, versionOf, id) {
        assert BitesChosen(more[i], n, versionOf, id);
      }
    }
  }

  method SortedDistinct(still: seq<string>, beforeIds: set<string>) returns (ids: seq<string>)
    ensures forall id :: id in ids <==> id in beforeIds && id in still
    ensures forall i, j :: 0 <= i < j < |ids| ==> ids[i] != ids[j] && IdOrder(ids[i], ids[j])
  {
    hide Before;
    var seen: seq<string> := [];
    for i := 0 to |still|
      invariant forall id :: id in seen <==> id in beforeIds && id in still[..i]
      invariant forall i, j :: 0 <= i < j < |seen| ==> seen[i] != seen[j]
    {
      assert still[..i + 1] == still[..i] + [still[i]];
      if still[i] in beforeIds && still[i] !in seen {
        seen := seen + [still[i]];
      }
    }
    assert still[..|still|] == still;
    IdOrderIsPreorder();
    SortSorted(IdOrder, seen);
    SortFacts(IdOrder, seen);
    DistinctStaysDistinct(seen, Sort(IdOrder, seen));
    ids := Sort(IdOrder, seen);
  }

  lemma IdOrderIsPreorder()
    ensures TotalPreorder(IdOrder)
  {
    CharsAreTotal();
    forall a, b ensures IdOrder(a, b) || IdOrder(b, a) { BeforeIsTotal(CharLess, a, b); }
    forall a, b, c | IdOrder(a, b) && IdOrder(b, c) ensures IdOrder(a, c) {
      if a != b && b != c { BeforeIsTransitive(CharLess, a, b, c); }
    }
  }

  lemma {:induction false} DistinctCount(s: seq<string>, x: string)
    requires forall i, j :: 0 <= i < j < |s| ==> s[i] != s[j]
    ensures multiset(s)[x] <= 1
  {
    if s != [] {
      var front, last := s[..|s| - 1], s[|s| - 1];
      DistinctCount(front, x);
      assert s == front + [last];
      assert last !in front;
    }
  }

  lemma DistinctStaysDistinct(s: seq<string>, t: seq<string>)
    requires multiset(s) == multiset(t) && forall i, j :: 0 <= i < j < |s| ==> s[i] != s[j]
    ensures forall i, j :: 0 <= i < j < |t| ==> t[i] != t[j]
  {
    forall i, j | 0 <= i < j < |t| ensures t[i] != t[j] {
      DistinctCount(s, t[i]);
      assert t == t[..j] + t[j..];
      assert t[..j][i] == t[i] && t[j..][0] == t[j];
      assert t[i] in multiset(t[..j]);
      assert t[j] in multiset(t[j..]);
    }
  }

  /** What the executor re-scans: the targets of the security items, in plan order. */
  function Chosen(items: seq<Item>): seq<Choice> {
    if items == [] then []
    else
      var last := items[|items| - 1];
      Chosen(items[..|items| - 1]) + if last.kind == Security then [Choice(last.name, last.target)] else []
  }

  lemma {:induction false} ChosenComeFromItems(items: seq<Item>)
    ensures forall c :: c in Chosen(items) ==> exists item :: item in items && item.name == c.name && item.target == c.version
  {
    if items != [] {
      var front, last := items[..|items| - 1], items[|items| - 1];
      ChosenComeFromItems(front);
      assert items == front + [last];
      assert last in items;
    }
  }

  lemma {:induction false} VersionOfComesFromChosen(chosen: seq<Choice>)
    ensures forall name :: name in VersionOf(chosen) ==> Choice(name, VersionOf(chosen)[name]) in chosen
  {
    if chosen != [] {
      VersionOfComesFromChosen(chosen[..|chosen| - 1]);
      assert chosen == chosen[..|chosen| - 1] + [chosen[|chosen| - 1]];
    }
  }

  /** The re-scan of a plan's targets finds nothing when the registry answers with advisories the plan knew. */
  lemma RescanFindsNothing(deps: seq<Dep>, intel: Intel, proposeNextMajor: bool, collate: string -> int, answers: seq<Answer>, id: string)
    requires forall i :: 0 <= i < |answers| ==> forall a :: a in answers[i].advisories ==> a in AdvisoriesFor(intel, answers[i].name)
    ensures !StillBitten(answers, VersionOf(Chosen(PlanOf(deps, intel, proposeNextMajor, collate).items)), id)
  {
    var items := PlanOf(deps, intel, proposeNextMajor, collate).items;
    PlanIsSafe(deps, intel, proposeNextMajor, collate);
    ChosenComeFromItems(items);
    VersionOfComesFromChosen(Chosen(items));
    hide PlanOf, Chosen, VersionOf, Satisfies, Bites, AdvisoriesFor;
    var versionOf := VersionOf(Chosen(items));
    forall i, k | 0 <= i < |answers| && 0 <= k < |answers[i].advisories| ensures !BitesChosen(answers[i], k, versionOf, id) {
      var name, a := answers[i].name, answers[i].advisories[k];
      if name in versionOf {
        var item :| item in items && item.name == name && item.target == versionOf[name];
        assert SafeItem(intel, item) && a in AdvisoriesFor(intel, name);
      }
    }
  }
}
