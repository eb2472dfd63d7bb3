/** The template DAG of a run: which stages it has, their priorities, the dependency rows and the
    dependency counters. Its whole point for the scheduler is that priorities fall along edges. */
module Dag {
  import opened WorkItems
  import opened Scheduler

  datatype Surface = Frontend | Backend | Mixed

  datatype Stage =
    | PlanDag | PlanBackendTopology
    | GenerateRoute | GenerateService | GenerateRepository | GenerateCapabilityBinding
    | GenesisFoundation | FoundationValidate | CodeBackend | CodeFrontend
    | FrameworkValidate | TestsWritten | ReviewDiff | RunTests | PreviewValidate | ReviewIntegration

  type Link = (Stage, Stage)

  /** The position of a stage in every template that contains it, relative to the others. */
  function Rank(s: Stage): nat {
    match s
    case PlanDag => 0
    case PlanBackendTopology => 1
    case GenerateRoute => 2
    case GenerateService => 3
    case GenerateRepository => 4
    case GenerateCapabilityBinding => 5
    case GenesisFoundation => 6
    case FoundationValidate => 7
    case CodeBackend => 8
    case CodeFrontend => 9
    case FrameworkValidate => 10
    case TestsWritten => 11
    case ReviewDiff => 12
    case RunTests => 13
    case PreviewValidate => 14
    case ReviewIntegration => 15
  }

  predicate BackendGeneration(s: Stage) {
    s == GenerateRoute || s == GenerateService || s == GenerateRepository || s == GenerateCapabilityBinding
  }

  predicate CodeStage(s: Stage) {
    s == CodeBackend || s == GenesisFoundation || s == CodeFrontend || BackendGeneration(s)
  }

  /** Which stages a run has. */
  predicate InTemplate(s: Stage, surface: Surface, genesis: bool) {
    var r := Rank(s);
    if 1 <= r <= 5 then surface != Frontend
    else if r == 6 then surface != Backend && genesis
    else if r == 8 then false
    else if r == 7 || r == 9 then surface != Backend
    else true
  }

  ghost predicate Ranked(nodes: seq<Stage>) {
    forall j, k :: 0 <= j < k < |nodes| ==> Rank(nodes[j]) < Rank(nodes[k])
  }

  /** `nodes` lists, in rank order, exactly the template's stages of rank below `r`. */
  ghost predicate TemplateBelow(nodes: seq<Stage>, r: nat, surface: Surface, genesis: bool) {
    && Ranked(nodes)
    && (forall k :: 0 <= k < |nodes| ==> Rank(nodes[k]) < r)
    && forall s :: s in nodes <==> InTemplate(s, surface, genesis) && Rank(s) < r
  }

  lemma Extend(nodes: seq<Stage>, s: Stage, surface: Surface, genesis: bool)
    requires TemplateBelow(nodes, Rank(s), surface, genesis) && InTemplate(s, surface, genesis)
    ensures TemplateBelow(nodes + [s], Rank(s) + 1, surface, genesis)
  {
    RankInjective();
  }

  lemma RankInjective()
    ensures forall s: Stage, t: Stage :: Rank(s) == Rank(t) ==> s == t
  {
  }

  method Append(nodes: seq<Stage>, s: Stage, ghost surface: Surface, ghost genesis: bool) returns (r: seq<Stage>)
    requires TemplateBelow(nodes, Rank(s), surface, genesis) && InTemplate(s, surface, genesis)
    ensures TemplateBelow(r, Rank(s) + 1, surface, genesis)
  {
    Extend(nodes, s, surface, genesis);
    r := nodes + [s];
  }

  method BuildNodes(surface: Surface, genesis: bool) returns (nodes: seq<Stage>)
    ensures Ranked(nodes) && |nodes| > 0 && nodes[0] == PlanDag
    ensures forall s :: s in nodes <==> InTemplate(s, surface, genesis)
    ensures nodes == StageList(surface, genesis)
  {
    nodes := Append([], PlanDag, surface, genesis);
    nodes := AddBackend(nodes, surface, genesis);
    nodes := AddFrontend(nodes, surface, genesis);
    nodes := Append(nodes, FrameworkValidate, surface, genesis);
    nodes := Append(nodes, TestsWritten, surface, genesis);
    nodes := Append(nodes, ReviewDiff, surface, genesis);
    nodes := Append(nodes, RunTests, surface, genesis);
    nodes := Append(nodes, PreviewValidate, surface, genesis);
    nodes := Append(nodes, ReviewIntegration, surface, genesis);
    PlanComesFirst(nodes, surface, genesis);
    StagesAre(nodes, surface, genesis);
  }

  method AddBackend(before: seq<Stage>, surface: Surface, ghost genesis: bool) returns (nodes: seq<Stage>)
    requires TemplateBelow(before, 1, surface, genesis)
    ensures TemplateBelow(nodes, 6, surface, genesis)
  {
    nodes := before;
    if surface != Frontend {
      nodes := Append(nodes, PlanBackendTopology, surface, genesis);
      nodes := Append(nodes, GenerateRoute, surface, genesis);
      nodes := Append(nodes, GenerateService, surface, genesis);
      nodes := Append(nodes, GenerateRepository, surface, genesis);
      nodes := Append(nodes, GenerateCapabilityBinding, surface, genesis);
    }
  }

  method AddFrontend(before: seq<Stage>, surface: Surface, genesis: bool) returns (nodes: seq<Stage>)
    requires TemplateBelow(before, 6, surface, genesis)
    ensures TemplateBelow(nodes, 10, surface, genesis)
  {
    nodes := before;
    if surface != Backend {
      if genesis {
        nodes := Append(nodes, GenesisFoundation, surface, genesis);
      }
      assert TemplateBelow(nodes, 7, surface, genesis);
      nodes := Append(nodes, FoundationValidate, surface, genesis);
      assert TemplateBelow(nodes, 9, surface, genesis);
      nodes := Append(nodes, CodeFrontend, surface, genesis);
    }
  }

  lemma PlanComesFirst(nodes: seq<Stage>, surface: Surface, genesis: bool)
    requires TemplateBelow(nodes, 16, surface, genesis)
    ensures Ranked(nodes) && |nodes| > 0 && nodes[0] == PlanDag
    ensures forall s :: s in nodes <==> InTemplate(s, surface, genesis)
  {
    assert PlanDag in nodes;
    var k :| 0 <= k < |nodes| && nodes[k] == PlanDag;
  }

  /** The candidates for code stages, in the order in which their edges are added. */
  const CODE_ORDER: seq<Stage> := [CodeBackend, GenesisFoundation, CodeFrontend,
                                  GenerateRoute, GenerateService, GenerateRepository, GenerateCapabilityBinding]

  /** The predecessor of a generated backend layer. */
  function LayerBefore(s: Stage): Stage
    requires BackendGeneration(s)
  {
    match s
    case GenerateRoute => PlanBackendTopology
    case GenerateService => GenerateRoute
    case GenerateRepository => GenerateService
    case _ => GenerateRepository
  }

  /** The links a code stage contributes. */
  predicate LinkOf(code: Stage, l: Link) {
    || l == (code, FrameworkValidate)
    || (BackendGeneration(code) && (l == (PlanDag, PlanBackendTopology) || l == (LayerBefore(code), code)))
    || (!BackendGeneration(code) && l == (PlanDag, code))
    || (code == GenesisFoundation && l == (GenesisFoundation, FoundationValidate))
    || (code == CodeFrontend && l == (FoundationValidate, CodeFrontend))
  }

  const TAIL: seq<Link> := [
    (FrameworkValidate, TestsWritten), (TestsWritten, ReviewDiff), (ReviewDiff, RunTests),
    (RunTests, PreviewValidate), (PreviewValidate, ReviewIntegration)]

  /** Exactly the dependencies of the run. */
  ghost predicate Expected(l: Link, surface: Surface, genesis: bool) {
    || (exists code :: CodeStage(code) && InTemplate(code, surface, genesis) && LinkOf(code, l))
    || (surface != Backend && l == (PlanDag, FoundationValidate))
    || l in TAIL
  }

  method LinksOf(code: Stage, nodes: seq<Stage>, ghost surface: Surface, ghost genesis: bool) returns (added: seq<Link>)
    requires CodeStage(code) && code in nodes
    requires forall s :: s in nodes <==> InTemplate(s, surface, genesis)
    ensures forall l :: l in added <==> LinkOf(code, l)
  {
    if BackendGeneration(code) && PlanBackendTopology in nodes {
      added := [(PlanDag, PlanBackendTopology)];
      match code {
        case GenerateRoute => added := added + [(PlanBackendTopology, GenerateRoute)];
        case GenerateService => added := added + [(GenerateRoute, GenerateService)];
        case GenerateRepository => added := added + [(GenerateService, GenerateRepository)];
        case _ => added := added + [(GenerateRepository, GenerateCapabilityBinding)];
      }
    } else {
      added := [(PlanDag, code)];
    }
    if code == GenesisFoundation && CodeFrontend in nodes {
      if FoundationValidate in nodes {
        added := added + [(GenesisFoundation, FoundationValidate)];
      } else {
        added := added + [(GenesisFoundation, CodeFrontend)];
      }
    }
    if code == CodeFrontend && FoundationValidate in nodes {
      added := added + [(FoundationValidate, CodeFrontend)];
    }
    added := added + [(code, FrameworkValidate)];
  }

  /** `l` is contributed by one of the first `n` candidates. */
  ghost predicate LinkedBy(l: Link, n: nat, nodes: seq<Stage>)
    requires n <= |CODE_ORDER|
  {
    exists j :: 0 <= j < n && CODE_ORDER[j] in nodes && LinkOf(CODE_ORDER[j], l)
  }

  method BuildLinks(nodes: seq<Stage>, surface: Surface, genesis: bool) returns (links: seq<Link>)
    requires forall s :: s in nodes <==> InTemplate(s, surface, genesis)
    ensures forall l :: l in links <==> Expected(l, surface, genesis)
  {
    links := [];
    for n := 0 to |CODE_ORDER|
      invariant forall l :: l in links <==> LinkedBy(l, n, nodes)
    {
      var code := CODE_ORDER[n];
      if code in nodes {
        var added := LinksOf(code, nodes, surface, genesis);
        links := links + added;
      }
    }
    forall l ensures LinkedBy(l, |CODE_ORDER|, nodes)
      <==> exists code :: CodeStage(code) && InTemplate(code, surface, genesis) && LinkOf(code, l)
    {
      CandidatesCover(l, nodes, surface, genesis);
    }
    if FoundationValidate in nodes {
      links := links + [(PlanDag, FoundationValidate)];
    }
    links := links + TAIL;
  }

  lemma CandidatesCover(l: Link, nodes: seq<Stage>, surface: Surface, genesis: bool)
    requires forall s :: s in nodes <==> InTemplate(s, surface, genesis)
    ensures LinkedBy(l, |CODE_ORDER|, nodes)
       <==> exists code :: CodeStage(code) && InTemplate(code, surface, genesis) && LinkOf(code, l)
  {
    if code :| CodeStage(code) && InTemplate(code, surface, genesis) && LinkOf(code, l) {
      assert code in CODE_ORDER;
      var j :| 0 <= j < |CODE_ORDER| && CODE_ORDER[j] == code;
    }
  }

  /** A dependency connects two stages of the run and goes forward in rank. */
  lemma ExpectedForward(l: Link, surface: Surface, genesis: bool)
    requires Expected(l, surface, genesis)
    ensures InTemplate(l.0, surface, genesis) && InTemplate(l.1, surface, genesis) && Rank(l.0) < Rank(l.1)
  {
    if l in TAIL {
      TailForward(l);
    }
  }

  lemma TailForward(l: Link)
    requires l in TAIL
    ensures Rank(l.0) < Rank(l.1)
    ensures forall surface, genesis :: InTemplate(l.0, surface, genesis) && InTemplate(l.1, surface, genesis)
  {
    var j :| 0 <= j < |TAIL| && TAIL[j] == l;
  }

  /** Every stage but the plan waits for some other stage. */
  lemma ExpectedEnters(s: Stage, surface: Surface, genesis: bool) returns (l: Link)
    requires InTemplate(s, surface, genesis) && s != PlanDag
    ensures Expected(l, surface, genesis) && l.1 == s
  {
    if s == PlanBackendTopology {
      l := (PlanDag, s);
      assert LinkOf(GenerateRoute, l);
    } else if s == FoundationValidate {
      l := (PlanDag, s);
    } else if s == FrameworkValidate {
      var code := if surface == Backend then GenerateRoute else CodeFrontend;
      l := (code, s);
      assert LinkOf(code, l);
    } else if CodeStage(s) {
      l := (if BackendGeneration(s) then LayerBefore(s) else PlanDag, s);
      assert LinkOf(s, l);
    } else {
      l := TAIL[Rank(s) - 11];
      assert l in TAIL;
    }
  }

  // ---------------------------------------------------------------- the templates written out

  function BackendStages(): seq<Stage> {
    [PlanBackendTopology, GenerateRoute, GenerateService, GenerateRepository, GenerateCapabilityBinding]
  }

  function FrontendStages(genesis: bool): seq<Stage> {
    if genesis then [GenesisFoundation, FoundationValidate, CodeFrontend] else [FoundationValidate, CodeFrontend]
  }

  /** The stages of a run, in order. */
  function StageList(surface: Surface, genesis: bool): seq<Stage> {
    [PlanDag]
    + (if surface == Frontend then [] else BackendStages())
    + (if surface == Backend then [] else FrontendStages(genesis))
    + ClosingStages()
  }

  function ClosingStages(): seq<Stage> {
    [FrameworkValidate, TestsWritten, ReviewDiff, RunTests, PreviewValidate, ReviewIntegration]
  }

  lemma {:induction false} RankedSame(a: seq<Stage>, b: seq<Stage>)
    requires Ranked(a) && Ranked(b) && forall s :: s in a <==> s in b
    ensures a == b
  {
    if a == [] {
      FirstIsIn(b);
    } else {
      assert a[0] in a && a[0] in b;
      assert b[0] in b && b[0] in a;
      var j :| 0 <= j < |b| && b[j] == a[0];
      var i :| 0 <= i < |a| && a[i] == b[0];
      assert a[0] == b[0];
      forall s ensures s in a[1..] <==> s in b[1..] {
        RestOf(a, s);
        RestOf(b, s);
      }
      RankedSame(a[1..], b[1..]);
    }
  }

  lemma FirstIsIn(b: seq<Stage>)
    ensures b != [] ==> b[0] in b
  {
  }

  lemma RestOf(a: seq<Stage>, s: Stage)
    requires Ranked(a) && a != []
    ensures s in a[1..] <==> s in a && s != a[0]
  {
    assert a == [a[0]] + a[1..];
    if s in a[1..] {
      var k :| 0 <= k < |a| - 1 && a[1..][k] == s;
      assert Rank(a[0]) < Rank(a[k + 1]);
    }
  }

  /** `a` lists, in rank order, the template's stages of these ranks. */
  ghost predicate ListsRanks(a: seq<Stage>, from: nat, to: nat, surface: Surface, genesis: bool) {
    && Ranked(a)
    && forall s :: s in a <==> InTemplate(s, surface, genesis) && from <= Rank(s) < to
  }

  lemma ListsConcat(a: seq<Stage>, b: seq<Stage>, from: nat, mid: nat, to: nat, surface: Surface, genesis: bool)
    requires from <= mid <= to
    requires ListsRanks(a, from, mid, surface, genesis) && ListsRanks(b, mid, to, surface, genesis)
    ensures ListsRanks(a + b, from, to, surface, genesis)
  {
    forall j, k | 0 <= j < k < |a + b| ensures Rank((a + b)[j]) < Rank((a + b)[k]) {
      if j < |a| <= k {
        assert a[j] in a && b[k - |a|] in b;
      }
    }
  }

  lemma BackendPart(surface: Surface, genesis: bool)
    ensures ListsRanks(if surface == Frontend then [] else BackendStages(), 1, 6, surface, genesis)
  {
    var a := BackendStages();
    assert forall s :: s in a <==> 1 <= Rank(s) <= 5;
  }

  lemma FrontendPart(surface: Surface, genesis: bool)
    ensures ListsRanks(if surface == Backend then [] else FrontendStages(genesis), 6, 10, surface, genesis)
  {
    var a := FrontendStages(genesis);
    assert forall s :: s in a <==> (genesis && Rank(s) == 6) || Rank(s) == 7 || Rank(s) == 9;
  }

  lemma ClosingPart(surface: Surface, genesis: bool)
    ensures ListsRanks(ClosingStages(), 10, 16, surface, genesis)
  {
    var a := ClosingStages();
    assert forall s :: s in a <==> Rank(s) >= 10;
  }

  lemma OpeningPart(surface: Surface, genesis: bool)
    ensures ListsRanks([PlanDag], 0, 1, surface, genesis)
  {
  }

  /** Every template is the list it should be. */
  lemma StagesAre(nodes: seq<Stage>, surface: Surface, genesis: bool)
    requires Ranked(nodes) && forall s :: s in nodes <==> InTemplate(s, surface, genesis)
    ensures nodes == StageList(surface, genesis)
  {
    var backend := if surface == Frontend then [] else BackendStages();
    var frontend := if surface == Backend then [] else FrontendStages(genesis);
    assert ListsRanks([PlanDag] + backend, 0, 6, surface, genesis) by {
      OpeningPart(surface, genesis);
      BackendPart(surface, genesis);
      ListsConcat([PlanDag], backend, 0, 1, 6, surface, genesis);
    }
    assert ListsRanks([PlanDag] + backend + frontend, 0, 10, surface, genesis) by {
      FrontendPart(surface, genesis);
      ListsConcat([PlanDag] + backend, frontend, 0, 6, 10, surface, genesis);
    }
    assert ListsRanks(StageList(surface, genesis), 0, 16, surface, genesis) by {
      ClosingPart(surface, genesis);
      ListsConcat([PlanDag] + backend + frontend, ClosingStages(), 0, 10, 16, surface, genesis);
    }
    RankedSame(nodes, StageList(surface, genesis));
  }

  const BACKEND_LINKS: seq<Link> := [
    (PlanDag, PlanBackendTopology), (PlanBackendTopology, GenerateRoute), (GenerateRoute, GenerateService),
    (GenerateService, GenerateRepository), (GenerateRepository, GenerateCapabilityBinding),
    (GenerateRoute, FrameworkValidate), (GenerateService, FrameworkValidate), (GenerateRepository, FrameworkValidate),
    (GenerateCapabilityBinding, FrameworkValidate)]

  const FRONTEND_LINKS: seq<Link> := [
    (PlanDag, FoundationValidate), (PlanDag, CodeFrontend), (FoundationValidate, CodeFrontend),
    (CodeFrontend, FrameworkValidate)]

  const GENESIS_LINKS: seq<Link> := [
    (PlanDag, GenesisFoundation), (GenesisFoundation, FoundationValidate), (GenesisFoundation, FrameworkValidate)]

  const VALIDATION_LINKS: seq<Link> := [
    (FrameworkValidate, TestsWritten), (TestsWritten, ReviewDiff), (ReviewDiff, RunTests),
    (RunTests, PreviewValidate), (PreviewValidate, ReviewIntegration)]

  ghost predicate Listed(l: Link, surface: Surface, genesis: bool) {
    || (surface != Frontend && l in BACKEND_LINKS)
    || (surface != Backend && l in FRONTEND_LINKS)
    || (surface != Backend && genesis && l in GENESIS_LINKS)
    || l in VALIDATION_LINKS
  }

  /** So are the dependencies. */
  lemma LinksAre(l: Link, surface: Surface, genesis: bool)
    ensures Expected(l, surface, genesis) <==> Listed(l, surface, genesis)
  {
    if Expected(l, surface, genesis) {
      ExpectedListed(l, surface, genesis);
    }
    if Listed(l, surface, genesis) {
      ListedExpected(l, surface, genesis);
    }
  }

  lemma ExpectedListed(l: Link, surface: Surface, genesis: bool)
    requires Expected(l, surface, genesis)
    ensures Listed(l, surface, genesis)
  {
    if code :| CodeStage(code) && InTemplate(code, surface, genesis) && LinkOf(code, l) {
      if BackendGeneration(code) {
        BackendListed(code, l);
      } else if code == GenesisFoundation {
        assert GENESIS_LINKS[0] == (PlanDag, code) && GENESIS_LINKS[1] == (code, FoundationValidate)
               && GENESIS_LINKS[2] == (code, FrameworkValidate);
      } else {
        assert FRONTEND_LINKS[1] == (PlanDag, code) && FRONTEND_LINKS[2] == (FoundationValidate, code)
               && FRONTEND_LINKS[3] == (code, FrameworkValidate);
      }
    } else if surface != Backend && l == (PlanDag, FoundationValidate) {
      assert FRONTEND_LINKS[0] == l;
    }
  }

  lemma BackendListed(code: Stage, l: Link)
    requires BackendGeneration(code) && LinkOf(code, l)
    ensures l in BACKEND_LINKS
  {
    var k := Rank(code) - 1;
    assert BACKEND_LINKS[0] == (PlanDag, PlanBackendTopology);
    assert BACKEND_LINKS[k] == (LayerBefore(code), code) && BACKEND_LINKS[k + 4] == (code, FrameworkValidate);
  }

  lemma ListedExpected(l: Link, surface: Surface, genesis: bool)
    requires Listed(l, surface, genesis)
    ensures Expected(l, surface, genesis)
  {
    if surface != Frontend && l in BACKEND_LINKS {
      var code := if BackendGeneration(l.0) && l.1 == FrameworkValidate then l.0
                  else if BackendGeneration(l.1) then l.1 else GenerateRoute;
      assert LinkOf(code, l);
    } else if surface != Backend && l in FRONTEND_LINKS {
      assert l == (PlanDag, FoundationValidate) || LinkOf(CodeFrontend, l);
    } else if surface != Backend && genesis && l in GENESIS_LINKS {
      assert LinkOf(GenesisFoundation, l);
    } else {
      assert VALIDATION_LINKS == TAIL;
    }
  }

  // ---------------------------------------------------------------- rows

  ghost predicate HasParent(edges: seq<Edge>, x: nat) {
    exists e <- edges :: e.1 == x
  }

  function IndexOf(nodes: seq<Stage>, s: Stage): (k: nat)
    requires s in nodes
    ensures k < |nodes| && nodes[k] == s
  {
    if nodes[0] == s then 0 else 1 + IndexOf(nodes[1..], s)
  }

  /** How many dependency rows point at row `x`, duplicates included. */
  function RowsInto(edges: seq<Edge>, x: nat): nat {
    if edges == [] then 0
    else RowsInto(edges[..|edges| - 1], x) + if edges[|edges| - 1].1 == x then 1 else 0
  }

  /** The payload's blocking flag: the verification stages never block the run. */
  function BlockingSetting(s: Stage, hasTask: bool): Setting {
    if s == TestsWritten then No
    else if hasTask && (s == RunTests || s == PreviewValidate || s == ReviewDiff || s == ReviewIntegration) then No
    else Absent
  }

  /** The work item of stage `s` created at position `idx`. */
  ghost predicate ItemOf(i: Item, s: Stage, idx: nat, hasTask: bool) {
    && i.status == Queued
    && i.profile.priority == 10 - idx
    && (i.profile.kind == WriteTests <==> s == TestsWritten)
    && i.profile.blocking == BlockingSetting(s, hasTask)
  }

  /** A row that nothing has happened to. */
  predicate Untouched(i: Item, maxAttempts: nat) {
    i == Item(Queued, i.profile, NO_FLAGS, 0) && i.profile.maxAttempts == maxAttempts
  }

  method CreateItems(nodes: seq<Stage>, hasTask: bool, maxAttempts: nat) returns (items: seq<Item>)
    ensures |items| == |nodes| && forall k :: 0 <= k < |items| ==> ItemOf(items[k], nodes[k], k, hasTask)
    ensures forall i <- items :: Untouched(i, maxAttempts)
  {
    items := [];
    for idx := 0 to |nodes|
      invariant |items| == idx && forall k :: 0 <= k < idx ==> ItemOf(items[k], nodes[k], k, hasTask)
      invariant forall i <- items :: Untouched(i, maxAttempts)
    {
      var kind := if nodes[idx] == TestsWritten then WriteTests else OtherKind;
      var profile := Profile(kind, BlockingSetting(nodes[idx], hasTask), 10 - idx, maxAttempts);
      items := items + [Item(Queued, profile, NO_FLAGS, 0)];
    }
  }

  /** `edges` stores `links` row by row. */
  ghost predicate Stores(edges: seq<Edge>, links: seq<Link>, nodes: seq<Stage>) {
    && |edges| == |links|
    && forall j :: 0 <= j < |links| ==> (
         && links[j].0 in nodes && links[j].1 in nodes
         && edges[j] == (IndexOf(nodes, links[j].0), IndexOf(nodes, links[j].1)))
  }

  method CreateRows(nodes: seq<Stage>, links: seq<Link>) returns (edges: seq<Edge>, dependsOn: seq<nat>)
    requires forall j :: 0 <= j < |links| ==> links[j].0 in nodes && links[j].1 in nodes
    ensures Stores(edges, links, nodes)
    ensures |dependsOn| == |nodes| && forall k :: 0 <= k < |nodes| ==> dependsOn[k] == RowsInto(edges, k)
  {
    edges := [];
    dependsOn := seq(|nodes|, _ => 0);
    for n := 0 to |links|
      invariant Stores(edges, links[..n], nodes) && |dependsOn| == |nodes|
      invariant forall k :: 0 <= k < |nodes| ==> dependsOn[k] == RowsInto(edges, k)
    {
      var src, dst := IndexOf(nodes, links[n].0), IndexOf(nodes, links[n].1);
      ghost var before := edges;
      edges := edges + [(src, dst)];
      dependsOn := dependsOn[dst := dependsOn[dst] + 1];
      assert edges[..|edges| - 1] == before;
    }
    assert links[..|links|] == links;
  }

  /** The whole builder: distinct ranked stages, one queued row each, and dependency rows along
      which priorities fall. */
  method GenerateTemplateDag(surface: Surface, genesis: bool, hasTask: bool, maxAttempts: nat)
    returns (nodes: seq<Stage>, items: seq<Item>, edges: seq<Edge>, dependsOn: seq<nat>)
    ensures Ranked(nodes) && forall s :: s in nodes <==> InTemplate(s, surface, genesis)
    ensures |items| == |nodes| && forall k :: 0 <= k < |items| ==> ItemOf(items[k], nodes[k], k, hasTask)
    ensures forall i <- items :: Untouched(i, maxAttempts)
    ensures PriorityDecreases(items, edges)
    ensures forall j, k :: 0 <= j < |nodes| && 0 <= k < |nodes| ==>
              ((j, k) in edges <==> Expected((nodes[j], nodes[k]), surface, genesis))
    ensures forall k :: 1 <= k < |items| ==> HasParent(edges, k)
    ensures |dependsOn| == |nodes| && forall k :: 0 <= k < |items| ==> dependsOn[k] == RowsInto(edges, k)
  {
    nodes := BuildNodes(surface, genesis);
    items := CreateItems(nodes, hasTask, maxAttempts);
    var links := BuildLinks(nodes, surface, genesis);
    forall j | 0 <= j < |links|
      ensures links[j].0 in nodes && links[j].1 in nodes && Rank(links[j].0) < Rank(links[j].1)
    {
      assert links[j] in links;
      ExpectedForward(links[j], surface, genesis);
    }
    edges, dependsOn := CreateRows(nodes, links);
    RowsFall(nodes, links, edges, items, hasTask);
    RowsCover(nodes, links, edges, surface, genesis);
    RowsAreExpected(nodes, links, edges, surface, genesis);
  }

  lemma RowsFall(nodes: seq<Stage>, links: seq<Link>, edges: seq<Edge>, items: seq<Item>, hasTask: bool)
    requires Ranked(nodes) && Stores(edges, links, nodes) && |items| == |nodes|
    requires forall j :: 0 <= j < |links| ==> Rank(links[j].0) < Rank(links[j].1)
    requires forall k :: 0 <= k < |items| ==> ItemOf(items[k], nodes[k], k, hasTask)
    ensures PriorityDecreases(items, edges)
  {
    forall e | e in edges ensures e.0 < e.1 < |nodes| {
      var j :| 0 <= j < |edges| && edges[j] == e;
      assert Rank(nodes[e.0]) < Rank(nodes[e.1]);
      if e.1 < e.0 {
        assert false;
      }
    }
  }

  lemma RowsCover(nodes: seq<Stage>, links: seq<Link>, edges: seq<Edge>, surface: Surface, genesis: bool)
    requires Ranked(nodes) && Stores(edges, links, nodes) && |nodes| > 0 && nodes[0] == PlanDag
    requires forall s :: s in nodes <==> InTemplate(s, surface, genesis)
    requires forall l :: l in links <==> Expected(l, surface, genesis)
    ensures forall k :: 1 <= k < |nodes| ==> HasParent(edges, k)
  {
    forall k | 1 <= k < |nodes| ensures HasParent(edges, k) {
      assert nodes[k] in nodes && Rank(nodes[0]) < Rank(nodes[k]);
      var l := ExpectedEnters(nodes[k], surface, genesis);
      var row := LinkRow(nodes, links, edges, l);
      RankedUnique(nodes, row.1, k);
    }
  }

  lemma RowsAreExpected(nodes: seq<Stage>, links: seq<Link>, edges: seq<Edge>, surface: Surface, genesis: bool)
    requires Ranked(nodes) && Stores(edges, links, nodes)
    requires forall l :: l in links <==> Expected(l, surface, genesis)
    ensures forall j, k :: 0 <= j < |nodes| && 0 <= k < |nodes| ==>
              ((j, k) in edges <==> Expected((nodes[j], nodes[k]), surface, genesis))
  {
    forall j, k | 0 <= j < |nodes| && 0 <= k < |nodes|
      ensures (j, k) in edges <==> Expected((nodes[j], nodes[k]), surface, genesis)
    {
      if Expected((nodes[j], nodes[k]), surface, genesis) {
        var row := LinkRow(nodes, links, edges, (nodes[j], nodes[k]));
        RankedUnique(nodes, row.0, j);
        RankedUnique(nodes, row.1, k);
      }
      if (j, k) in edges {
        var m :| 0 <= m < |edges| && edges[m] == (j, k);
        assert links[m] in links && links[m] == (nodes[j], nodes[k]);
      }
    }
  }

  lemma LinkRow(nodes: seq<Stage>, links: seq<Link>, edges: seq<Edge>, l: Link) returns (row: Edge)
    requires Stores(edges, links, nodes) && l in links
    ensures row in edges && row.0 < |nodes| && row.1 < |nodes| && nodes[row.0] == l.0 && nodes[row.1] == l.1
  {
    var j :| 0 <= j < |links| && links[j] == l;
    row := edges[j];
  }

  lemma RankedUnique(nodes: seq<Stage>, j: nat, k: nat)
    requires Ranked(nodes) && j < |nodes| && k < |nodes| && nodes[j] == nodes[k]
    ensures j == k
  {
  }

  /** In a graph whose priorities are `10 - row` and fall along edges, and where every row but the
      first has a parent, everything descends from the first row: the plan gates the whole run. */
  lemma {:induction false} PlanReaches(items: seq<Item>, edges: seq<Edge>, x: nat) returns (path: seq<nat>)
    requires PriorityDecreases(items, edges) && x < |items|
    requires forall k :: 0 <= k < |items| ==> items[k].profile.priority == 10 - k
    requires forall k :: 1 <= k < |items| ==> HasParent(edges, k)
    ensures |path| > 0 && path[0] == 0 && path[|path| - 1] == x
    ensures forall k :: 1 <= k < |path| ==> (path[k - 1], path[k]) in edges
    decreases x
  {
    if x == 0 {
      path := [0];
    } else {
      assert HasParent(edges, x);
      var e :| e in edges && e.1 == x;
      assert (e.0, x) in edges;
      assert items[e.0].profile.priority > items[e.1].profile.priority;
      path := PlanReaches(items, edges, e.0);
      path := path + [x];
    }
  }

  /** Which failed stages block a template run: all of them without a task; with one, tests, reviews and the preview
      do not. Writing tests never does. */
  lemma FailedStageBlocks(s: Stage, idx: nat, hasTask: bool, queued: Item, i: Item)
    requires ItemOf(queued, s, idx, hasTask) && i.profile == queued.profile
    requires i.status == Failed && i.flags == NO_FLAGS
    ensures BlockingFailure(i) <==>
            s != TestsWritten
            && (hasTask ==> s != ReviewDiff && s != RunTests && s != PreviewValidate && s != ReviewIntegration)
    ensures BlockingFailure(i) <==> !Releases(i)
  {
    BlockingIff(i);
    ReleasesIff(i);
  }

  /** The template never marks WRITE_TESTS as blocking, so of its rows only those whose error text
      alone names the budget can become split failures. */
  lemma TemplateSplitsOnlyOnErrorText(nodes: seq<Stage>, hasTask: bool, k: nat, i: Item)
    requires k < |nodes|
    requires i.profile.kind == WriteTests <==> nodes[k] == TestsWritten
    requires i.profile.blocking == BlockingSetting(nodes[k], hasTask)
    ensures SplitView(i) <==>
              && i.status == Failed && !i.flags.superseded && !i.flags.budgetInResult && i.flags.budgetInError
              && BlockingSetting(nodes[k], hasTask) == Absent
  {
  }
}
