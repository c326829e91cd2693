/** The closure part of the CI planner: which packages a change makes us build, test and pack
    (`createPlanFromChangedFiles`, `validatePlan`, tools/affected-validation.js). */
module AffectedPlan {
  import opened Basics
  import opened WorkspaceGraph
  import opened TransitiveClosure

  const TESTING_PACKAGE := "@mikara89/cap-testing"
  const PLAN_VERSION := 1

  /** What the path rules say about a file inside a package. */
  datatype Impact = Impact(test: bool, integrationTest: bool, runtime: bool, packDocumentation: bool)

  datatype Kind =
    | InPackage(name: string, impact: Impact)
    | GlobalBuild
    | Application(root: string)
    | Elsewhere(why: string)

  datatype Workspace = Workspace(graph: Graph, order: seq<string>, directory: map<string, string>, framework: set<string>)

  ghost predicate ValidWorkspace(ws: Workspace) {
    WellFormed(ws.graph) && IsOrder(ws.graph.dependencies, ws.order) && ws.directory.Keys == ws.graph.dependencies.Keys
  }

  datatype Plan = Plan(
    version: int, changedFiles: seq<string>, reasons: seq<string>, testFiles: seq<string>,
    directlyAffected: seq<string>, affected: seq<string>, affectedDependents: seq<string>,
    build: seq<string>, test: seq<string>, pack: seq<string>, globalImpact: bool)

  // ---------------------------------------------------------------- validatePlan

  /** `field` holds known packages once each, in the workspace order. */
  predicate IsPackageList(ws: Workspace, field: seq<string>) {
    && |Elements(field)| == |field|
    && Elements(field) <= ws.graph.dependencies.Keys
    && field == Keep(ws.order, Elements(field))
  }

  predicate PassesValidation(ws: Workspace, plan: Plan) {
    && plan.version == PLAN_VERSION
    && plan.changedFiles == StableUnique(plan.changedFiles)
    && plan.testFiles == StableUnique(plan.testFiles)
    && plan.reasons == StableUnique(plan.reasons)
    && IsPackageList(ws, plan.directlyAffected) && IsPackageList(ws, plan.affected)
    && IsPackageList(ws, plan.affectedDependents)
    && IsPackageList(ws, plan.build) && IsPackageList(ws, plan.test) && IsPackageList(ws, plan.pack)
  }

  lemma KeptListIsPackageList(ws: Workspace, chosen: set<string>)
    requires ValidWorkspace(ws)
    ensures IsPackageList(ws, Keep(ws.order, chosen))
  {
    var field := Keep(ws.order, chosen);
    KeepDistinct(ws.order, chosen);
    DistinctSize(field);
    forall x <- ws.order ensures x in Elements(field) <==> x in chosen {
      assert x in Elements(ws.order);
    }
    KeepAgain(ws.order, chosen, Elements(field));
  }

  lemma StableUniqueAgain(values: seq<string>)
    ensures StableUnique(StableUnique(values)) == StableUnique(values)
  {
    IncreasingUnique(StableUnique(StableUnique(values)), StableUnique(values));
  }

  // ---------------------------------------------------------------- what the changed files mark

  datatype Flag = Owned | Runtime | Tested | Built | Packed

  /** The derived impacts of `packageImpact`. */
  predicate Has(impact: Impact, flag: Flag) {
    match flag
    case Owned => true
    case Runtime => impact.runtime
    case Tested => (impact.test && !impact.integrationTest) || impact.runtime
    case Built => impact.runtime || impact.test
    case Packed => impact.runtime || impact.packDocumentation
  }

  /** The packages owning a changed file whose impact has the flag. */
  ghost function Marked(files: set<string>, classify: string -> Kind, flag: Flag): set<string> {
    set f | f in files && classify(f).InPackage? && Has(classify(f).impact, flag) :: classify(f).name
  }

  ghost predicate IsGlobal(files: set<string>, classify: string -> Kind) {
    exists f :: f in files && classify(f).GlobalBuild?
  }

  ghost function ApplicationRoots(files: set<string>, classify: string -> Kind): set<string> {
    set f | f in files && classify(f).Application? :: classify(f).root
  }

  /** Whether a file on its own asks for the end-to-end suite. */
  predicate AsksForE2e(kind: Kind, framework: set<string>) {
    kind.Application? || (kind.InPackage? && kind.impact.runtime && kind.name in framework)
  }

  ghost predicate SomeAsksForE2e(files: set<string>, classify: string -> Kind, framework: set<string>) {
    exists f :: f in files && AsksForE2e(classify(f), framework)
  }

  function Reason(file: string, kind: Kind): string {
    file + ": " + match kind
      case InPackage(name, _) => "owned by " + name
      case GlobalBuild => "repository-global build or package configuration"
      case Application(_) => "application or e2e input"
      case Elsewhere(why) => why
  }

  /** The local variables of the loop over the changed files. */
  datatype Marks = Marks(
    direct: set<string>, runtime: set<string>, test: set<string>, build: set<string>, pack: set<string>,
    roots: set<string>, reasons: seq<string>, globalImpact: bool, e2e: bool)

  ghost predicate MarkedBy(ws: Workspace, files: set<string>, classify: string -> Kind, m: Marks) {
    && m.direct == Marked(files, classify, Owned)
    && m.runtime == Marked(files, classify, Runtime)
    && m.test == Marked(files, classify, Tested)
    && m.build == Marked(files, classify, Built)
    && m.pack == Marked(files, classify, Packed)
    && m.test <= ws.directory.Keys
    && m.roots == Directories(ws, m.test) + ApplicationRoots(files, classify)
    && (m.globalImpact <==> IsGlobal(files, classify))
    && (m.e2e <==> SomeAsksForE2e(files, classify, ws.framework))
  }

  function Directories(ws: Workspace, names: set<string>): set<string>
    requires names <= ws.directory.Keys
  {
    set n | n in names :: ws.directory[n]
  }

  lemma MarkOneMore(files: set<string>, file: string, classify: string -> Kind, flag: Flag)
    ensures Marked(files + {file}, classify, flag) == Marked(files, classify, flag) + Added(classify(file), flag)
  {
    forall n | n in Marked(files, classify, flag) + Added(classify(file), flag)
      ensures n in Marked(files + {file}, classify, flag)
    {
      if n in Marked(files, classify, flag) {
        var f :| f in files && classify(f).InPackage? && Has(classify(f).impact, flag) && classify(f).name == n;
        assert f in files + {file};
      } else {
        assert file in files + {file};
      }
    }
  }

  /** The branches for one changed file. */
  method MarkFile(ws: Workspace, ghost files: set<string>, file: string, classify: string -> Kind, m: Marks)
    returns (m': Marks)
    requires MarkedBy(ws, files, classify, m)
    requires classify(file).InPackage? ==> classify(file).name in ws.directory
    ensures MarkedBy(ws, files + {file}, classify, m')
    ensures m'.reasons == m.reasons + [Reason(file, classify(file))]
  {
    hide Marked, ApplicationRoots, Directories, IsGlobal, SomeAsksForE2e, Reason;
    MarkOneMore(files, file, classify, Owned);
    MarkOneMore(files, file, classify, Runtime);
    MarkOneMore(files, file, classify, Tested);
    MarkOneMore(files, file, classify, Built);
    MarkOneMore(files, file, classify, Packed);
    RootsOneMore(ws, files, file, classify, m.test);
    FlagsOneMore(ws, files, file, classify);
    var kind := classify(file);
    m' := m.(reasons := m.reasons + [Reason(file, kind)]);
    match kind
    case InPackage(name, impact) =>
      m' := m'.(direct := m'.direct + {name});
      if impact.runtime || impact.test { m' := m'.(build := m'.build + {name}); }
      if (impact.test && !impact.integrationTest) || impact.runtime {
        m' := m'.(test := m'.test + {name}, roots := m'.roots + {ws.directory[name]});
      }
      if impact.runtime { m' := m'.(runtime := m'.runtime + {name}); }
      if impact.runtime || impact.packDocumentation { m' := m'.(pack := m'.pack + {name}); }
      if impact.runtime && name in ws.framework { m' := m'.(e2e := true); }
    case GlobalBuild => m' := m'.(globalImpact := true);
    case Application(root) => m' := m'.(e2e := true, roots := m'.roots + {root});
    case Elsewhere(_) =>
  }

  ghost function Added(kind: Kind, flag: Flag): set<string> {
    if kind.InPackage? && Has(kind.impact, flag) then {kind.name} else {}
  }

  lemma RootsOneMore(ws: Workspace, files: set<string>, file: string, classify: string -> Kind, tested: set<string>)
    requires tested <= ws.directory.Keys && (classify(file).InPackage? ==> classify(file).name in ws.directory)
    ensures Directories(ws, tested + Added(classify(file), Tested))
         == Directories(ws, tested)
          + (if Added(classify(file), Tested) != {} then {ws.directory[classify(file).name]} else {})
    ensures ApplicationRoots(files + {file}, classify)
         == ApplicationRoots(files, classify) + (if classify(file).Application? then {classify(file).root} else {})
  {
  }

  lemma FlagsOneMore(ws: Workspace, files: set<string>, file: string, classify: string -> Kind)
    ensures IsGlobal(files + {file}, classify) <==> IsGlobal(files, classify) || classify(file).GlobalBuild?
    ensures SomeAsksForE2e(files + {file}, classify, ws.framework)
       <==> SomeAsksForE2e(files, classify, ws.framework) || AsksForE2e(classify(file), ws.framework)
  {
    if classify(file).GlobalBuild? || AsksForE2e(classify(file), ws.framework) { assert file in files + {file}; }
    forall f <- files ensures f in files + {file} { }
  }

  // ---------------------------------------------------------------- the plan

  /** The loop over the sorted changed files. */
  method MarkFiles(ws: Workspace, files: seq<string>, classify: string -> Kind) returns (m: Marks)
    requires forall f <- files :: classify(f).InPackage? ==> classify(f).name in ws.directory
    ensures MarkedBy(ws, Elements(files), classify, m)
    ensures |m.reasons| == |files| && forall i :: 0 <= i < |files| ==> m.reasons[i] == Reason(files[i], classify(files[i]))
  {
    m := Marks({}, {}, {}, {}, {}, {}, [], false, false);
    assert MarkedBy(ws, {}, classify, m);
    assert Elements(files[..0]) == {};
    hide MarkedBy, Reason;
    for i := 0 to |files|
      invariant MarkedBy(ws, Elements(files[..i]), classify, m)
      invariant |m.reasons| == i && forall k :: 0 <= k < i ==> m.reasons[k] == Reason(files[k], classify(files[k]))
    {
      assert files[..i + 1] == files[..i] + [files[i]];
      assert Elements(files[..i + 1]) == Elements(files[..i]) + {files[i]};
      m := MarkFile(ws, Elements(files[..i]), files[i], classify, m);
    }
    assert files[..|files|] == files;
  }

  /** The seeds of the build closure. */
  ghost function BuildSeeds(ws: Workspace, m: Marks, imports: set<string>): set<string> {
    var all := ws.graph.dependencies.Keys;
    m.build + m.pack
    + (if m.globalImpact then all else {})
    + (if m.globalImpact || m.e2e then imports else {})
    + (if (m.test != {} || (m.globalImpact && all != {})) && TESTING_PACKAGE in all then {TESTING_PACKAGE} else {})
  }

  /** The package sets behind a plan's lists. */
  datatype Scope = Scope(
    direct: set<string>, affected: set<string>, dependents: set<string>,
    build: set<string>, test: set<string>, pack: set<string>)

  /** What the marks call for. */
  ghost function CalledFor(ws: Workspace, m: Marks, imports: set<string>): Scope {
    var all := ws.graph.dependencies.Keys;
    var dependents := ReachedFrom(ws.graph.dependents, m.runtime);
    if m.globalImpact then Scope(m.direct, all, {}, all, all, all)
    else Scope(m.direct, m.direct + dependents, dependents - m.direct,
      ReachedFrom(ws.graph.dependencies, BuildSeeds(ws, m, imports) + dependents), m.test + dependents, m.pack)
  }

  ghost predicate Selects(ws: Workspace, m: Marks, imports: set<string>, plan: Plan) {
    && plan.globalImpact == m.globalImpact
    && CalledFor(ws, m, imports)
    == Scope(Elements(plan.directlyAffected), Elements(plan.affected), Elements(plan.affectedDependents),
      Elements(plan.build), Elements(plan.test), Elements(plan.pack))
  }

  ghost predicate Plannable(ws: Workspace, files: seq<string>, classify: string -> Kind, imports: set<string>) {
    && ValidWorkspace(ws) && imports <= ws.graph.dependencies.Keys
    && forall f <- files :: classify(f).InPackage? ==> classify(f).name in ws.directory
  }

  lemma MarkedAreKnown(ws: Workspace, files: seq<string>, classify: string -> Kind, imports: set<string>, flag: Flag)
    requires Plannable(ws, files, classify, imports)
    ensures Marked(Elements(files), classify, flag) <= ws.graph.dependencies.Keys
  {
  }

  ghost predicate MarksKnown(ws: Workspace, m: Marks) {
    var all := ws.graph.dependencies.Keys;
    m.direct <= all && m.runtime <= all && m.test <= all && m.build <= all && m.pack <= all
  }

  /** Adding seeds and closing them under dependents and dependencies. */
  method Expand(ws: Workspace, m: Marks, imports: set<string>) returns (s: Scope, roots: set<string>)
    requires ValidWorkspace(ws) && MarksKnown(ws, m) && imports <= ws.graph.dependencies.Keys
    requires m.test <= ws.directory.Keys && Directories(ws, m.test) <= m.roots
    ensures s == CalledFor(ws, m, imports)
    ensures m.test <= s.test <= ws.directory.Keys && roots == m.roots + Directories(ws, s.test)
  {
    hide Directories, IsOrder, Closed, IsLeastClosed, ReachedFrom;
    var all := ws.graph.dependencies.Keys;
    var build, test, pack := m.build, m.test, m.pack;
    roots := m.roots;
    if m.globalImpact {
      build, test, pack := build + all, test + all, pack + all;
      DirectoriesOfUnion(ws, m.test, all);
      roots := roots + Directories(ws, all);
    }
    build := build + pack;
    if m.e2e || m.globalImpact { build := build + imports; }
    if test != {} && TESTING_PACKAGE in all { build := build + {TESTING_PACKAGE}; }
    assert build == BuildSeeds(ws, m, imports);
    if m.globalImpact {
      s := Scope(m.direct, all, {}, build, test, pack);
    } else {
      var expanded := CloseOver(ws.graph.dependents, m.runtime);
      var closure := CloseOver(ws.graph.dependencies, build + expanded);
      DirectoriesOfUnion(ws, test, expanded);
      test, roots := test + expanded, roots + Directories(ws, expanded);
      s := Scope(m.direct, m.direct + (expanded - m.direct), expanded - m.direct, closure, test, pack);
    }
  }

  lemma DirectoriesOfUnion(ws: Workspace, a: set<string>, b: set<string>)
    requires a <= ws.directory.Keys && b <= ws.directory.Keys
    ensures Directories(ws, a + b) == Directories(ws, a) + Directories(ws, b)
  {
  }

  method CloseOver(edges: Edges, seeds: set<string>) returns (r: set<string>)
    requires Closed(edges) && seeds <= edges.Keys
    ensures r == ReachedFrom(edges, seeds) && r <= edges.Keys
  {
    r := Closure(seeds, edges);
    ClosureIsReach(edges, seeds, r);
  }

  /** The returned object, with every list in the workspace order. */
  method Assemble(ws: Workspace, files: seq<string>, m: Marks, s: Scope, testFiles: seq<string>) returns (plan: Plan)
    requires ValidWorkspace(ws)
    requires s.direct + s.affected + s.dependents + s.build + s.test + s.pack <= ws.graph.dependencies.Keys
    ensures PassesValidation(ws, plan) && plan.globalImpact == m.globalImpact
    ensures s == Scope(Elements(plan.directlyAffected), Elements(plan.affected), Elements(plan.affectedDependents),
                        Elements(plan.build), Elements(plan.test), Elements(plan.pack))
    ensures Elements(plan.changedFiles) == Elements(files) && Elements(plan.testFiles) == Elements(testFiles)
    ensures Elements(plan.reasons)
         == Elements(m.reasons) + (if files == [] then {"No changed files: retain repository verification and lint."} else {})
  {
    hide IsOrder, WellFormed, IsPackageList, Increasing;
    var reasons := if files == [] then m.reasons + ["No changed files: retain repository verification and lint."] else m.reasons;
    ElementsOfBoth(m.reasons, ["No changed files: retain repository verification and lint."]);
    hide Elements;
    StableUniqueAgain(files);
    StableUniqueAgain(reasons);
    StableUniqueAgain(testFiles);
    var direct, affected, dependents := Listed(ws, s.direct), Listed(ws, s.affected), Listed(ws, s.dependents);
    var build, test, pack := Listed(ws, s.build), Listed(ws, s.test), Listed(ws, s.pack);
    plan := Plan(PLAN_VERSION, StableUnique(files), StableUnique(reasons), StableUnique(testFiles),
                 direct, affected, dependents, build, test, pack, m.globalImpact);
  }

  lemma ElementsOfBoth(a: seq<string>, b: seq<string>)
    ensures Elements(a + b) == Elements(a) + Elements(b) && (|b| == 1 ==> Elements(b) == {b[0]})
  {
  }

  /** `orderedNames`. */
  function Listed(ws: Workspace, chosen: set<string>): (r: seq<string>)
    requires ValidWorkspace(ws) && chosen <= ws.graph.dependencies.Keys
    ensures IsPackageList(ws, r) && Elements(r) == chosen
  {
    KeptListIsPackageList(ws, chosen);
    Keep(ws.order, chosen)
  }

  /** `createPlanFromChangedFiles`. `imports` are the workspace packages the test application
      imports; `discover` finds the unit test files below a set of directories. The plan passes
      `validatePlan` and selects exactly what the marks of the changed files call for. */
  method CreatePlan(ws: Workspace, changedFiles: seq<string>, classify: string -> Kind,
                    imports: set<string>, discover: set<string> -> set<string>) returns (plan: Plan)
    requires Plannable(ws, changedFiles, classify, imports)
    ensures PassesValidation(ws, plan) && Elements(plan.changedFiles) == Elements(changedFiles)
    ensures exists m :: MarkedBy(ws, Elements(changedFiles), classify, m) && Selects(ws, m, imports, plan)
    ensures Elements(plan.test) <= ws.directory.Keys
    ensures Elements(plan.testFiles)
         == discover(Directories(ws, Elements(plan.test)) + ApplicationRoots(Elements(changedFiles), classify))
    ensures PlanFits(ws, changedFiles, classify, imports, discover, plan)
  {
    hide *;
    var files := StableUnique(changedFiles);
    SortedIsPlannable(ws, changedFiles, classify, imports);
    var m := MarkFiles(ws, files, classify);
    MarksAreKnown(ws, files, classify, imports, m);
    var scope, roots := Expand(ws, m, imports);
    ScopeIsKnown(ws, m, imports);
    RootsCovered(ws, Elements(files), classify, m, scope.test);
    var testFiles := Ascending(discover(roots));
    plan := Assemble(ws, files, m, scope, testFiles);
    SelectsThem(ws, m, imports, plan);
    ReasonsListed(changedFiles, files, classify, m.reasons, plan);
    MarkedPlanFits(ws, changedFiles, classify, imports, discover, m, plan);
  }

  lemma MarksAreKnown(ws: Workspace, files: seq<string>, classify: string -> Kind, imports: set<string>, m: Marks)
    requires Plannable(ws, files, classify, imports) && MarkedBy(ws, Elements(files), classify, m)
    ensures ValidWorkspace(ws) && MarksKnown(ws, m) && imports <= ws.graph.dependencies.Keys
    ensures m.test <= ws.directory.Keys && Directories(ws, m.test) <= m.roots
  {
    hide Marked, ApplicationRoots, Directories, WellFormed, IsOrder;
    MarkedAreKnown(ws, files, classify, imports, Owned);
    MarkedAreKnown(ws, files, classify, imports, Runtime);
    MarkedAreKnown(ws, files, classify, imports, Tested);
    MarkedAreKnown(ws, files, classify, imports, Built);
    MarkedAreKnown(ws, files, classify, imports, Packed);
  }

  lemma ScopeIsKnown(ws: Workspace, m: Marks, imports: set<string>)
    requires ValidWorkspace(ws) && MarksKnown(ws, m)
    ensures var s := CalledFor(ws, m, imports);
      s.direct + s.affected + s.dependents + s.build + s.test + s.pack <= ws.graph.dependencies.Keys
  {
    hide Reaches, IsOrder;
  }

  lemma RootsCovered(ws: Workspace, files: set<string>, classify: string -> Kind, m: Marks, test: set<string>)
    requires MarkedBy(ws, files, classify, m) && m.test <= test <= ws.directory.Keys
    ensures m.roots + Directories(ws, test) == Directories(ws, test) + ApplicationRoots(files, classify)
  {
    hide Marked, ApplicationRoots, IsGlobal, SomeAsksForE2e;
  }

  lemma SelectsThem(ws: Workspace, m: Marks, imports: set<string>, plan: Plan)
    requires plan.globalImpact == m.globalImpact
    requires CalledFor(ws, m, imports)
          == Scope(Elements(plan.directlyAffected), Elements(plan.affected), Elements(plan.affectedDependents),
                   Elements(plan.build), Elements(plan.test), Elements(plan.pack))
    ensures Selects(ws, m, imports, plan)
  {
  }

  lemma SortedIsPlannable(ws: Workspace, files: seq<string>, classify: string -> Kind, imports: set<string>)
    requires Plannable(ws, files, classify, imports)
    ensures Plannable(ws, StableUnique(files), classify, imports)
    ensures forall f <- StableUnique(files) :: classify(f).InPackage? ==> classify(f).name in ws.directory
  {
    forall f <- StableUnique(files) ensures f in files { assert f in Elements(StableUnique(files)); }
  }

  // ---------------------------------------------------------------- soundness

  /** The build list is closed under dependencies and lists them first. */
  lemma BuildIsDependencyFirst(ws: Workspace, m: Marks, imports: set<string>, plan: Plan)
    requires ValidWorkspace(ws) && PassesValidation(ws, plan) && Selects(ws, m, imports, plan)
    ensures DependencyFirst(ws.graph.dependencies, plan.build)
  {
    var edges, built := ws.graph.dependencies, Elements(plan.build);
    if !plan.globalImpact {
      var seeds := BuildSeeds(ws, m, imports) + ReachedFrom(ws.graph.dependents, m.runtime);
      ReachedIsClosedUnder(edges, seeds);
    }
    KeepClosedSet(edges, ws.order, built);
  }

  lemma ReachedIsClosedUnder(edges: Edges, seeds: set<string>)
    requires Closed(edges)
    ensures ClosedUnder(edges, ReachedFrom(edges, seeds))
  {
    hide Reaches;
    forall n <- ReachedFrom(edges, seeds), d <- From(edges, n) ensures d in ReachedFrom(edges, seeds) {
      var s :| s in seeds && Reaches(edges, s, n);
      ReachExtends(edges, s, n, d);
    }
  }

  /** Whatever depends, directly or through others, on a package with a runtime change is
      built, tested and listed as affected. */
  lemma DependentsAreCovered(ws: Workspace, files: set<string>, classify: string -> Kind, m: Marks, imports: set<string>,
                             plan: Plan, file: string, q: string)
    requires ValidWorkspace(ws) && MarkedBy(ws, files, classify, m) && Selects(ws, m, imports, plan)
    requires file in files && classify(file).InPackage? && classify(file).impact.runtime
    requires q in ws.graph.dependencies && Reaches(ws.graph.dependencies, q, classify(file).name)
    ensures q in plan.build && q in plan.test && q in plan.affected
  {
    var p := classify(file).name;
    assert p in m.runtime;
    if !plan.globalImpact {
      ReverseReach(ws.graph, q, p);
      assert q in ReachedFrom(ws.graph.dependents, m.runtime);
      ReachIsReflexive(ws.graph.dependencies, q);
    }
    assert q in Elements(plan.build) && q in Elements(plan.test) && q in Elements(plan.affected);
  }

  // ---------------------------------------------------------------- the plan, file by file

  /** The file was changed and belongs to the package. */
  predicate Changes(files: seq<string>, classify: string -> Kind, f: string, p: string) {
    f in files && classify(f).InPackage? && classify(f).name == p
  }

  ghost predicate RuntimeChanged(files: seq<string>, classify: string -> Kind, p: string) {
    exists f :: Changes(files, classify, f, p) && classify(f).impact.runtime
  }

  ghost predicate UnitTestChanged(files: seq<string>, classify: string -> Kind, p: string) {
    exists f :: Changes(files, classify, f, p) && classify(f).impact.test && !classify(f).impact.integrationTest
  }

  ghost predicate AnyTestChanged(files: seq<string>, classify: string -> Kind, p: string) {
    exists f :: Changes(files, classify, f, p) && classify(f).impact.test
  }

  ghost predicate PackDocumentationChanged(files: seq<string>, classify: string -> Kind, p: string) {
    exists f :: Changes(files, classify, f, p) && classify(f).impact.packDocumentation
  }

  /** The package is one with a runtime change, or depends on one, directly or through others. */
  ghost predicate FeelsRuntimeChange(ws: Workspace, files: seq<string>, classify: string -> Kind, p: string) {
    exists q :: RuntimeChanged(files, classify, q) && Reaches(ws.graph.dependencies, p, q)
  }

  /** A changed application, or a runtime change in a framework package. */
  ghost predicate E2eNeeded(ws: Workspace, files: seq<string>, classify: string -> Kind) {
    exists f :: f in files && (classify(f).Application?
                               || (classify(f).InPackage? && classify(f).impact.runtime && classify(f).name in ws.framework))
  }

  /** Packages that must be built for their own sake. */
  ghost predicate BuildWanted(ws: Workspace, files: seq<string>, classify: string -> Kind, imports: set<string>, plan: Plan, p: string) {
    || AnyTestChanged(files, classify, p) || PackDocumentationChanged(files, classify, p)
    || FeelsRuntimeChange(ws, files, classify, p)
    || (p in imports && E2eNeeded(ws, files, classify))
    || (p == "@mikara89/cap-testing" && plan.test != [])
  }

  ghost predicate BuildNeeded(ws: Workspace, files: seq<string>, classify: string -> Kind, imports: set<string>, plan: Plan, p: string) {
    exists q :: q in ws.graph.dependencies && BuildWanted(ws, files, classify, imports, plan, q) && Reaches(ws.graph.dependencies, q, p)
  }

  ghost predicate GlobalChanged(files: seq<string>, classify: string -> Kind) {
    exists f :: f in files && classify(f).GlobalBuild?
  }

  /** Which lists of the plan hold a package. */
  ghost predicate ListsFit(ws: Workspace, files: seq<string>, classify: string -> Kind, imports: set<string>, plan: Plan, p: string) {
    var owned, feels := (exists f :: Changes(files, classify, f, p)), FeelsRuntimeChange(ws, files, classify, p);
    && (p in plan.directlyAffected <==> owned)
    && if GlobalChanged(files, classify) then
         p in plan.build && p in plan.test && p in plan.pack && p in plan.affected && p !in plan.affectedDependents
       else
         && (p in plan.test <==> UnitTestChanged(files, classify, p) || feels)
         && (p in plan.pack <==> RuntimeChanged(files, classify, p) || PackDocumentationChanged(files, classify, p))
         && (p in plan.affected <==> owned || feels) && (p in plan.affectedDependents <==> !owned && feels)
         && (p in plan.build <==> BuildNeeded(ws, files, classify, imports, plan, p))
  }

  /** One reason for each changed file, or the one for none. */
  ghost predicate ReasonFits(files: seq<string>, classify: string -> Kind, r: string) {
    || (files == [] && r == "No changed files: retain repository verification and lint.")
    || exists f :: f in files && match classify(f)
         case InPackage(name, _) => r == f + ": " + ("owned by " + name)
         case GlobalBuild => r == f + ": " + "repository-global build or package configuration"
         case Application(_) => r == f + ": " + "application or e2e input"
         case Elsewhere(why) => r == f + ": " + why
  }

  /** The plan, from the changed files alone. */
  ghost predicate PlanFits(ws: Workspace, files: seq<string>, classify: string -> Kind, imports: set<string>,
                           discover: set<string> -> set<string>, plan: Plan) {
    && (plan.globalImpact <==> GlobalChanged(files, classify))
    && (forall p <- ws.graph.dependencies :: ListsFit(ws, files, classify, imports, plan, p))
    && (forall r :: r in plan.reasons <==> ReasonFits(files, classify, r))
    && Elements(plan.testFiles) == discover(
         (set p | p in plan.test && p in ws.directory :: ws.directory[p]) + (set f | f in files && classify(f).Application? :: classify(f).root))
  }

  lemma MarksInFields(ws: Workspace, files: seq<string>, classify: string -> Kind, m: Marks, p: string)
    requires MarkedBy(ws, Elements(files), classify, m)
    ensures p in m.direct <==> exists f :: Changes(files, classify, f, p)
    ensures p in m.runtime <==> RuntimeChanged(files, classify, p)
    ensures p in m.test <==> UnitTestChanged(files, classify, p) || RuntimeChanged(files, classify, p)
    ensures p in m.build <==> RuntimeChanged(files, classify, p) || AnyTestChanged(files, classify, p)
    ensures p in m.pack <==> RuntimeChanged(files, classify, p) || PackDocumentationChanged(files, classify, p)
    ensures m.globalImpact <==> GlobalChanged(files, classify)
    ensures m.e2e <==> E2eNeeded(ws, files, classify)
  {
    hide Changes, Marked;
    MarkedInFields(files, classify, Owned, p);
    MarkedInFields(files, classify, Runtime, p);
    MarkedInFields(files, classify, Tested, p);
    MarkedInFields(files, classify, Built, p);
    MarkedInFields(files, classify, Packed, p);
    assert forall f :: f in files <==> f in Elements(files);
  }

  lemma MarkedInFields(files: seq<string>, classify: string -> Kind, flag: Flag, p: string)
    ensures p in Marked(Elements(files), classify, flag) <==> exists f :: Changes(files, classify, f, p) && Has(classify(f).impact, flag)
  {
    hide Has;
    assert forall f :: f in files <==> f in Elements(files);
    if p in Marked(Elements(files), classify, flag) {
      var f :| f in Elements(files) && classify(f).InPackage? && Has(classify(f).impact, flag) && classify(f).name == p;
      assert Changes(files, classify, f, p);
    }
  }

  lemma FeelsIsReached(ws: Workspace, files: seq<string>, classify: string -> Kind, m: Marks, p: string)
    requires ValidWorkspace(ws) && MarkedBy(ws, Elements(files), classify, m) && p in ws.graph.dependencies
    ensures p in ReachedFrom(ws.graph.dependents, m.runtime) <==> FeelsRuntimeChange(ws, files, classify, p)
  {
    hide MarkedBy, Reaches, RuntimeChanged;
    if p in ReachedFrom(ws.graph.dependents, m.runtime) {
      var q :| q in m.runtime && Reaches(ws.graph.dependents, q, p);
      MarksInFields(ws, files, classify, m, q);
      ReverseReachBack(ws.graph, q, p);
    }
    if FeelsRuntimeChange(ws, files, classify, p) {
      var q :| RuntimeChanged(files, classify, q) && Reaches(ws.graph.dependencies, p, q);
      MarksInFields(ws, files, classify, m, q);
      ReverseReach(ws.graph, p, q);
    }
  }

  lemma ReverseReachBack(g: Graph, a: string, b: string)
    requires WellFormed(g) && Reaches(g.dependents, a, b)
    ensures Reaches(g.dependencies, b, a)
  {
    ReverseReach(Graph(g.dependents, g.dependencies), a, b);
  }

  lemma ReasonsListed(changedFiles: seq<string>, files: seq<string>, classify: string -> Kind, reasons: seq<string>, plan: Plan)
    requires files == StableUnique(changedFiles)
    requires |reasons| == |files| && forall i :: 0 <= i < |files| ==> reasons[i] == Reason(files[i], classify(files[i]))
    requires Elements(plan.reasons) == Elements(reasons) + (if files == [] then {"No changed files: retain repository verification and lint."} else {})
    ensures forall r :: r in plan.reasons <==> ReasonFits(changedFiles, classify, r)
  {
    hide StableUnique, Reason, ReasonFits;
    SameMembers(files, changedFiles);
    forall r ensures r in plan.reasons <==> ReasonFits(changedFiles, classify, r) {
      assert r in plan.reasons <==> r in Elements(plan.reasons);
      ReasonIsListed(changedFiles, files, classify, reasons, r);
      FittingIsReason(changedFiles, classify, r);
    }
  }

  lemma SameMembers(a: seq<string>, b: seq<string>)
    requires Elements(a) == Elements(b)
    ensures (forall x :: x in a <==> x in b) && (a == [] <==> b == [])
  {
    assert forall x :: (x in a <==> x in Elements(a)) && (x in b <==> x in Elements(b));
    if a != [] { assert a[0] in b; }
    if b != [] { assert b[0] in a; }
  }

  lemma ReasonIsListed(changedFiles: seq<string>, files: seq<string>, classify: string -> Kind, reasons: seq<string>, r: string)
    requires |reasons| == |files| && forall i :: 0 <= i < |files| ==> reasons[i] == Reason(files[i], classify(files[i]))
    requires forall f :: f in files <==> f in changedFiles
    ensures r in reasons <==> exists f :: f in changedFiles && Reason(f, classify(f)) == r
  {
    hide Reason;
    if r in reasons {
      var i :| 0 <= i < |reasons| && reasons[i] == r;
      assert files[i] in files;
    }
    if exists f :: f in changedFiles && Reason(f, classify(f)) == r {
      var f :| f in changedFiles && Reason(f, classify(f)) == r;
      var i :| 0 <= i < |files| && files[i] == f;
      assert reasons[i] == r;
    }
  }

  lemma ReasonInFields(f: string, kind: Kind)
    ensures Reason(f, kind) == match kind
                               case InPackage(name, _) => f + ": " + ("owned by " + name)
                               case GlobalBuild => f + ": " + "repository-global build or package configuration"
                               case Application(_) => f + ": " + "application or e2e input"
                               case Elsewhere(why) => f + ": " + why
  {
  }

  lemma FittingIsReason(files: seq<string>, classify: string -> Kind, r: string)
    ensures ReasonFits(files, classify, r) <==>
            (files == [] && r == "No changed files: retain repository verification and lint.")
            || exists f :: f in files && Reason(f, classify(f)) == r
  {
    forall f ensures Reason(f, classify(f)) == r <==>
                     match classify(f)
                     case InPackage(name, _) => r == f + ": " + ("owned by " + name)
                     case GlobalBuild => r == f + ": " + "repository-global build or package configuration"
                     case Application(_) => r == f + ": " + "application or e2e input"
                     case Elsewhere(why) => r == f + ": " + why
    {
      ReasonInFields(f, classify(f));
    }
    hide Reason;
  }

  lemma MarkedPlanFits(ws: Workspace, files: seq<string>, classify: string -> Kind, imports: set<string>,
                       discover: set<string> -> set<string>, m: Marks, plan: Plan)
    requires ValidWorkspace(ws) && imports <= ws.graph.dependencies.Keys
    requires MarkedBy(ws, Elements(files), classify, m) && MarksKnown(ws, m) && Selects(ws, m, imports, plan)
    requires Elements(plan.test) <= ws.directory.Keys
    requires Elements(plan.testFiles) == discover(Directories(ws, Elements(plan.test)) + ApplicationRoots(Elements(files), classify))
    requires forall r :: r in plan.reasons <==> ReasonFits(files, classify, r)
    ensures PlanFits(ws, files, classify, imports, discover, plan)
  {
    hide ListsFit, MarkedBy, Selects, ReasonFits, ValidWorkspace, MarksKnown;
    forall p <- ws.graph.dependencies ensures ListsFit(ws, files, classify, imports, plan, p) {
      ListsFitOne(ws, files, classify, imports, m, plan, p);
    }
    MarksInFields(ws, files, classify, m, "");
    RootsInFields(ws, files, classify, plan.test);
    SameFlag(ws, m, imports, plan);
    hide GlobalChanged, Elements, Directories, ApplicationRoots;
  }

  lemma SameFlag(ws: Workspace, m: Marks, imports: set<string>, plan: Plan)
    requires Selects(ws, m, imports, plan)
    ensures plan.globalImpact == m.globalImpact
  {
  }

  lemma RootsInFields(ws: Workspace, files: seq<string>, classify: string -> Kind, tested: seq<string>)
    requires Elements(tested) <= ws.directory.Keys
    ensures Directories(ws, Elements(tested)) == set p | p in tested && p in ws.directory :: ws.directory[p]
    ensures ApplicationRoots(Elements(files), classify) == set f | f in files && classify(f).Application? :: classify(f).root
  {
    assert forall p :: p in tested <==> p in Elements(tested);
    assert forall f :: f in files <==> f in Elements(files);
  }

  lemma ListsFitOne(ws: Workspace, files: seq<string>, classify: string -> Kind, imports: set<string>, m: Marks, plan: Plan, p: string)
    requires ValidWorkspace(ws) && imports <= ws.graph.dependencies.Keys && p in ws.graph.dependencies
    requires MarkedBy(ws, Elements(files), classify, m) && MarksKnown(ws, m) && Selects(ws, m, imports, plan)
    ensures ListsFit(ws, files, classify, imports, plan, p)
  {
    hide MarkedBy, ValidWorkspace, MarksKnown, RuntimeChanged, UnitTestChanged, AnyTestChanged, PackDocumentationChanged;
    hide FeelsRuntimeChange, BuildNeeded, GlobalChanged, Changes, Selects, Elements;
    MarksInFields(ws, files, classify, m, p);
    FeelsIsReached(ws, files, classify, m, p);
    BuildFitsOne(ws, files, classify, imports, m, plan, p);
    if RuntimeChanged(files, classify, p) { RuntimeIsFelt(ws, files, classify, p); }
    InScope(ws, m, imports, plan, p);
  }

  lemma RuntimeIsFelt(ws: Workspace, files: seq<string>, classify: string -> Kind, p: string)
    requires p in ws.graph.dependencies && RuntimeChanged(files, classify, p)
    ensures FeelsRuntimeChange(ws, files, classify, p)
  {
    ReachIsReflexive(ws.graph.dependencies, p);
    hide Reaches, RuntimeChanged;
  }

  /** The lists other than the build list, by the marks. */
  lemma InScope(ws: Workspace, m: Marks, imports: set<string>, plan: Plan, p: string)
    requires Selects(ws, m, imports, plan) && p in ws.graph.dependencies
    ensures var reached := p in ReachedFrom(ws.graph.dependents, m.runtime);
      && (p in plan.directlyAffected <==> p in m.direct)
      && if m.globalImpact then
           p in plan.build && p in plan.test && p in plan.pack && p in plan.affected && p !in plan.affectedDependents
         else
           && (p in plan.test <==> p in m.test || reached) && (p in plan.pack <==> p in m.pack)
           && (p in plan.affected <==> p in m.direct || reached) && (p in plan.affectedDependents <==> p !in m.direct && reached)
  {
    InLists(plan, p);
    hide BuildSeeds, ReachedFrom;
  }

  lemma InLists(plan: Plan, p: string)
    ensures p in plan.directlyAffected <==> p in Elements(plan.directlyAffected)
    ensures p in plan.affected <==> p in Elements(plan.affected)
    ensures p in plan.affectedDependents <==> p in Elements(plan.affectedDependents)
    ensures p in plan.build <==> p in Elements(plan.build)
    ensures p in plan.test <==> p in Elements(plan.test)
    ensures p in plan.pack <==> p in Elements(plan.pack)
  {
  }

  /** The seeds of the build closure are the packages wanted for their own sake. */
  lemma SeedIsWanted(ws: Workspace, files: seq<string>, classify: string -> Kind, imports: set<string>, m: Marks, plan: Plan, q: string)
    requires ValidWorkspace(ws) && q in ws.graph.dependencies && !m.globalImpact
    requires MarkedBy(ws, Elements(files), classify, m) && MarksKnown(ws, m) && Selects(ws, m, imports, plan)
    ensures q in BuildSeeds(ws, m, imports) + ReachedFrom(ws.graph.dependents, m.runtime)
       <==> BuildWanted(ws, files, classify, imports, plan, q)
  {
    hide MarkedBy, ValidWorkspace, MarksKnown, RuntimeChanged, UnitTestChanged, AnyTestChanged, PackDocumentationChanged;
    hide FeelsRuntimeChange, E2eNeeded, Changes, ReachedFrom, Selects, GlobalChanged;
    MarksInFields(ws, files, classify, m, q);
    FeelsIsReached(ws, files, classify, m, q);
    if RuntimeChanged(files, classify, q) { RuntimeIsFelt(ws, files, classify, q); }
    TestedIffMarked(ws, files, classify, imports, m, plan);
  }

  /** Something is tested exactly if some package is marked for it. */
  lemma TestedIffMarked(ws: Workspace, files: seq<string>, classify: string -> Kind, imports: set<string>, m: Marks, plan: Plan)
    requires ValidWorkspace(ws) && !m.globalImpact
    requires MarkedBy(ws, Elements(files), classify, m) && MarksKnown(ws, m) && Selects(ws, m, imports, plan)
    ensures plan.test != [] <==> m.test != {}
  {
    var dependents := ReachedFrom(ws.graph.dependents, m.runtime);
    assert Elements(plan.test) == m.test + dependents;
    if plan.test != [] && m.test == {} {
      assert plan.test[0] in Elements(plan.test);
      var q :| q in m.runtime && Reaches(ws.graph.dependents, q, plan.test[0]);
      MarksInFields(ws, files, classify, m, q);
    }
    if m.test != {} {
      var q :| q in m.test;
      assert q in Elements(plan.test);
    }
  }

  lemma BuildFitsOne(ws: Workspace, files: seq<string>, classify: string -> Kind, imports: set<string>, m: Marks, plan: Plan, p: string)
    requires ValidWorkspace(ws) && imports <= ws.graph.dependencies.Keys && p in ws.graph.dependencies
    requires MarkedBy(ws, Elements(files), classify, m) && MarksKnown(ws, m) && Selects(ws, m, imports, plan)
    ensures !m.globalImpact ==> (p in plan.build <==> BuildNeeded(ws, files, classify, imports, plan, p))
  {
    if !m.globalImpact {
      var seeds := BuildSeeds(ws, m, imports) + ReachedFrom(ws.graph.dependents, m.runtime);
      InLists(plan, p);
      assert p in plan.build <==> p in ReachedFrom(ws.graph.dependencies, seeds);
      assert forall q <- seeds :: q in ws.graph.dependencies;
      hide MarkedBy, Selects, BuildWanted, BuildSeeds, Reaches;
      forall q <- ws.graph.dependencies ensures q in seeds <==> BuildWanted(ws, files, classify, imports, plan, q) {
        SeedIsWanted(ws, files, classify, imports, m, plan, q);
      }
    }
  }

  /** In particular every package with a runtime or test change, every packed one, and the
      testing package when anything is tested, is built. */
  lemma WantedIsBuilt(ws: Workspace, files: seq<string>, classify: string -> Kind, imports: set<string>,
                      discover: set<string> -> set<string>, plan: Plan, p: string)
    requires PlanFits(ws, files, classify, imports, discover, plan) && p in ws.graph.dependencies
    requires || RuntimeChanged(files, classify, p) || AnyTestChanged(files, classify, p) || p in plan.pack
             || (p == "@mikara89/cap-testing" && plan.test != [])
    ensures p in plan.build
  {
    assert ListsFit(ws, files, classify, imports, plan, p);
    ReachIsReflexive(ws.graph.dependencies, p);
    if RuntimeChanged(files, classify, p) { RuntimeIsFelt(ws, files, classify, p); }
    hide RuntimeChanged, UnitTestChanged, AnyTestChanged, PackDocumentationChanged, FeelsRuntimeChange, E2eNeeded, GlobalChanged, Changes, Reaches;
  }

  // ---------------------------------------------------------------- which plans pass validation

  /** A plan passes exactly if it has the version, its files and reasons are sorted without
      repetition, and its lists hold known packages in the order of the workspace. */
  lemma ValidPlanInFields(ws: Workspace, plan: Plan)
    requires ValidWorkspace(ws)
    ensures PassesValidation(ws, plan)
       <==> && plan.version == 1 && Increasing(plan.changedFiles) && Increasing(plan.testFiles) && Increasing(plan.reasons)
            && ListedInOrder(ws.order, plan.directlyAffected) && ListedInOrder(ws.order, plan.affected)
            && ListedInOrder(ws.order, plan.affectedDependents)
            && ListedInOrder(ws.order, plan.build) && ListedInOrder(ws.order, plan.test) && ListedInOrder(ws.order, plan.pack)
  {
    hide IsPackageList, ListedInOrder, Increasing, ValidWorkspace;
    SortedIsStable(plan.changedFiles);
    SortedIsStable(plan.testFiles);
    SortedIsStable(plan.reasons);
    ListInFields(ws, plan.directlyAffected);
    ListInFields(ws, plan.affected);
    ListInFields(ws, plan.affectedDependents);
    ListInFields(ws, plan.build);
    ListInFields(ws, plan.test);
    ListInFields(ws, plan.pack);
  }

  lemma SortedIsStable(values: seq<string>)
    ensures values == StableUnique(values) <==> Increasing(values)
  {
    if Increasing(values) { IncreasingUnique(values, StableUnique(values)); }
  }

  lemma ListInFields(ws: Workspace, field: seq<string>)
    requires ValidWorkspace(ws)
    ensures IsPackageList(ws, field) <==> ListedInOrder(ws.order, field)
  {
    var known := ws.graph.dependencies.Keys;
    assert Distinct(ws.order) && Elements(ws.order) == known;
    hide ValidWorkspace, ListedInOrder, Distinct;
    if IsPackageList(ws, field) { KeptInOrder(ws.order, Elements(field)); }
    if ListedInOrder(ws.order, field) {
      SublistIsKept(ws.order, field);
      KeptListIsPackageList(ws, Elements(field));
    }
  }

  lemma {:induction false} SublistIsKept(order: seq<string>, field: seq<string>)
    requires Distinct(order) && ListedInOrder(order, field)
    ensures Keep(order, Elements(field)) == field
  {
    hide StandsBefore;
    var first := if field == [] then "" else field[0];
    assert field == [] || first in field;
    if order != [] {
      var taken := field != [] && field[0] == order[0];
      var rest := if taken then field[1..] else field;
      RestListed(order, field, rest);
      SublistIsKept(order[1..], rest);
      assert forall x <- order[1..] :: x != order[0];
      assert taken ==> field == [order[0]] + rest;
      assert forall x <- order[1..] :: x in Elements(field) <==> x in Elements(rest);
      KeepAgain(order[1..], Elements(rest), Elements(field));
      assert order[0] in Elements(field) <==> taken;
    }
  }

  /** Only the first of the list can be the first of the order. */
  lemma RestListed(order: seq<string>, field: seq<string>, rest: seq<string>)
    requires order != [] && Distinct(order) && ListedInOrder(order, field)
    requires rest == if field != [] && field[0] == order[0] then field[1..] else field
    ensures order[0] !in rest && ListedInOrder(order[1..], rest)
  {
    var n := |field| - |rest|;
    forall k | 0 <= k < |rest| ensures rest[k] != order[0] && rest[k] in order[1..] {
      assert rest[k] == field[k + n] && field[k + n] in order && field[0] in order;
      if k + n > 0 { NotFirst(order, field[0], rest[k]); }
      var q :| 0 <= q < |order| && order[q] == rest[k];
      assert q > 0 && order[1..][q - 1] == rest[k];
    }
    forall i, j | 0 <= i < j < |rest| ensures StandsBefore(order[1..], rest[i], rest[j]) {
      assert StandsBefore(order, field[i + n], field[j + n]);
      BeforeInRest(order, rest[i], rest[j]);
    }
  }

  lemma NotFirst(order: seq<string>, a: string, b: string)
    requires order != [] && a in order && StandsBefore(order, a, b)
    ensures b != order[0]
  {
    var p :| 0 <= p < |order| && order[p] == a;
    assert b == order[0] ==> p < 0;
  }

  lemma BeforeInRest(order: seq<string>, a: string, b: string)
    requires order != [] && StandsBefore(order, a, b)
    ensures StandsBefore(order[1..], a, b)
  {
    forall p, q | 0 <= p < |order[1..]| && 0 <= q < |order[1..]| && order[1..][p] == a && order[1..][q] == b ensures p < q {
      assert order[p + 1] == a && order[q + 1] == b;
    }
  }
}
