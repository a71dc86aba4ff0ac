/**
 `tree.ts`: grouping sessions by project, and rendering the sidebar by reconciling the container's
 children in place, so that an unchanged project keeps its DOM node.
 */
module ProjectTree {
  import opened Wrappers

  datatype Project = Project(id: string, data: string)
  datatype Session = Session(id: string, projectId: string, data: string)

  /** What the hooks last said of a session's agent. */
  datatype Observation = Observation(
    state: string,
    source: string,
    observedAtMs: int,
    lastOutcome: Option<string>,
    completedTurns: nat,
    generation: string
  )

  datatype Model = Model(
    projects: seq<Project>,
    sessions: seq<Session>,
    agentStates: map<string, string>,
    agentObservations: map<string, Observation>,
    selected: Option<string>,
    collapsed: set<string>
  )

  /** What the cache compares: the keyed data of one project's subtree. */
  datatype Key = Key(
    project: Project,
    sessions: seq<Session>,
    collapsed: bool,
    rows: seq<(Option<string>, bool)>
  )

  function SessionsOf(sessions: seq<Session>, project: string): seq<Session> {
    if sessions == [] then []
    else
      var last := sessions[|sessions| - 1];
      SessionsOf(sessions[..|sessions| - 1], project) + (if last.projectId == project then [last] else [])
  }

  function RowOf(model: Model, s: Session): (Option<string>, bool) {
    (if s.id in model.agentStates then Some(model.agentStates[s.id]) else None, model.selected == Some(s.id))
  }

  function KeyWith(model: Model, p: Project, sessions: seq<Session>): Key {
    Key(p, sessions, p.id in model.collapsed, seq(|sessions|, i requires 0 <= i < |sessions| => RowOf(model, sessions[i])))
  }

  function KeyOf(model: Model, p: Project): Key {
    KeyWith(model, p, SessionsOf(model.sessions, p.id))
  }

  lemma {:induction false} SessionsOfOne(s: Session, project: string)
    ensures SessionsOf([s], project) == if s.projectId == project then [s] else []
  {
    assert [s][..0] == [];
    NoSessions(project);
  }

  lemma {:induction false} SessionsOfSnoc(sessions: seq<Session>, s: Session, project: string)
    ensures SessionsOf(sessions + [s], project) ==
            SessionsOf(sessions, project) + (if s.projectId == project then [s] else [])
  {
    assert (sessions + [s])[..|sessions|] == sessions;
  }

  /** The grouping goes through the sessions one by one, in order. */
  lemma {:induction false} SessionsOfJoined(first: seq<Session>, second: seq<Session>, project: string)
    ensures SessionsOf(first + second, project) == SessionsOf(first, project) + SessionsOf(second, project)
  {
    hide SessionsOf;
    if second == [] {
      assert first + second == first && second == [];
      NoSessions(project);
    } else {
      var k := |second| - 1;
      assert first + second == (first + second[..k]) + [second[k]];
      assert second == second[..k] + [second[k]];
      SessionsOfSnoc(first + second[..k], second[k], project);
      SessionsOfSnoc(second[..k], second[k], project);
      SessionsOfJoined(first, second[..k], project);
    }
  }

  lemma {:induction false} NoSessions(project: string)
    ensures SessionsOf([], project) == []
  {
  }

  /** Both models show the same agent state for the session, or both none; and both select it or neither. */
  predicate SameRow(a: Model, b: Model, s: Session) {
    && (s.id in a.agentStates <==> s.id in b.agentStates)
    && (s.id in a.agentStates ==> a.agentStates[s.id] == b.agentStates[s.id])
    && (a.selected == Some(s.id) <==> b.selected == Some(s.id))
  }

  /**
   A cached subtree is kept exactly when everything that it shows besides the tooltips is the same:
   the project's sessions, whether it is collapsed, and each session's badge and selection.
   */
  lemma SameKeyIff(a: Model, b: Model, p: Project)
    ensures KeyOf(a, p) == KeyOf(b, p) <==>
            && SessionsOf(a.sessions, p.id) == SessionsOf(b.sessions, p.id)
            && (p.id in a.collapsed <==> p.id in b.collapsed)
            && forall s | s in SessionsOf(b.sessions, p.id) :: SameRow(a, b, s)
  {
    hide SessionsOf;
    var sessions := SessionsOf(b.sessions, p.id);
    if SessionsOf(a.sessions, p.id) == sessions {
      var left, right := KeyOf(a, p).rows, KeyOf(b, p).rows;
      assert forall i | 0 <= i < |sessions| :: left[i] == RowOf(a, sessions[i]) && right[i] == RowOf(b, sessions[i]);
      assert forall i | 0 <= i < |sessions| :: left[i] == right[i] <==> SameRow(a, b, sessions[i]);
      if forall s | s in sessions :: SameRow(a, b, s) {
        assert left == right;
      } else {
        var s :| s in sessions && !SameRow(a, b, s);
        var i :| 0 <= i < |sessions| && sessions[i] == s;
        assert left[i] != right[i];
      }
    }
  }

  /** A row's tooltip: four parts of the observation, or that there is none. */
  datatype Tooltip = Inferred | Observed(state: string, lastOutcome: Option<string>, source: string, observedAtMs: int)

  function TooltipOf(model: Model, s: Session): Tooltip {
    if s.id in model.agentObservations then
      var o := model.agentObservations[s.id];
      Observed(o.state, o.lastOutcome, o.source, o.observedAtMs)
    else Inferred
  }

  /** Two tooltips differ exactly when one of those four parts does, or only one was observed. */
  lemma SameTooltipIff(a: Model, b: Model, s: Session)
    ensures TooltipOf(a, s) == TooltipOf(b, s) <==>
            && (s.id in a.agentObservations <==> s.id in b.agentObservations)
            && (s.id in a.agentObservations ==>
                  var old', new' := a.agentObservations[s.id], b.agentObservations[s.id];
                  old'.state == new'.state && old'.lastOutcome == new'.lastOutcome && old'.source == new'.source
                  && old'.observedAtMs == new'.observedAtMs)
  {
  }

  function TooltipsWith(model: Model, p: Project, sessions: seq<Session>): seq<Tooltip> {
    if p.id in model.collapsed then []
    else seq(|sessions|, i requires 0 <= i < |sessions| => TooltipOf(model, sessions[i]))
  }

  /** The tooltips of a project's rows; a collapsed project has no rows. */
  function TooltipsOf(model: Model, p: Project): seq<Tooltip> {
    TooltipsWith(model, p, SessionsOf(model.sessions, p.id))
  }

  /** The tooltip data is in the model but in no project's key. */
  lemma ObservationsAreNotKeyed(model: Model, observations: map<string, Observation>, p: Project)
    ensures KeyOf(model.(agentObservations := observations), p) == KeyOf(model, p)
  {
  }

  /** Two models say the same of every session of the project, as far as a tooltip goes. */
  predicate SameObservations(before: Model, now: Model, p: Project) {
    forall s | s in SessionsOf(now.sessions, p.id) :: TooltipOf(before, s) == TooltipOf(now, s)
  }

  /**
   A subtree built from one model is right for another with the same key, exactly when the project
   is collapsed or its sessions' observations have not changed.
   */
  lemma TooltipsAgreeIff(before: Model, now: Model, p: Project)
    requires KeyOf(before, p) == KeyOf(now, p)
    ensures TooltipsOf(before, p) == TooltipsOf(now, p) <==> p.id in now.collapsed || SameObservations(before, now, p)
  {
    hide SessionsOf;
    var sessions := SessionsOf(now.sessions, p.id);
    assert KeyOf(before, p).sessions == sessions;
    var old', new' := TooltipsOf(before, p), TooltipsOf(now, p);
    if p.id !in now.collapsed {
      assert forall i | 0 <= i < |sessions| ::
        old'[i] == TooltipOf(before, sessions[i]) && new'[i] == TooltipOf(now, sessions[i]);
    }
  }

  function SessionsIn(groups: map<string, seq<Session>>, project: string): seq<Session> {
    if project in groups then groups[project] else []
  }

  /** `groupByProject`: every project that has sessions, each with its own in snapshot order. */
  method GroupByProject(sessions: seq<Session>) returns (groups: map<string, seq<Session>>)
    ensures forall p :: SessionsIn(groups, p) == SessionsOf(sessions, p)
    ensures forall p | p in groups :: groups[p] != []
  {
    groups := map[];
    for i := 0 to |sessions|
      invariant forall p :: SessionsIn(groups, p) == SessionsOf(sessions[..i], p)
      invariant forall p | p in groups :: groups[p] != []
    {
      var s := sessions[i];
      assert sessions[..i + 1][..i] == sessions[..i];
      if s.projectId in groups {
        groups := groups[s.projectId := groups[s.projectId] + [s]];
      } else {
        groups := groups[s.projectId := [s]];
      }
    }
    assert sessions[..|sessions|] == sessions;
  }

  // ---- sequences of children ----------------------------------------------------------------

  predicate Distinct<T(==)>(s: seq<T>) {
    forall i, j | 0 <= i < j < |s| :: s[i] != s[j]
  }

  lemma StartsDistinct<T>()
    ensures Distinct<T>([])
  {
  }

  lemma {:induction false} DistinctSnoc<T>(s: seq<T>, x: T)
    requires Distinct(s) && x !in s
    ensures Distinct(s + [x])
  {
  }

  function IndexOf<T(==)>(s: seq<T>, x: T): (i: nat)
    ensures i <= |s|
    ensures i < |s| ==> s[i] == x
    ensures forall k | 0 <= k < i :: s[k] != x
  {
    if s == [] || s[0] == x then 0 else 1 + IndexOf(s[1..], x)
  }

  function Without<T(==)>(s: seq<T>, x: T): seq<T> {
    var i := IndexOf(s, x);
    if i < |s| then s[..i] + s[i + 1..] else s
  }

  /** DOM `insertBefore`: a node already among the children is moved; no reference means the end. */
  function InsertBefore<T(==)>(s: seq<T>, x: T, at: Option<T>): seq<T> {
    var rest := Without(s, x);
    match at
    case None => rest + [x]
    case Some(a) => var i := IndexOf(rest, a); rest[..i] + [x] + rest[i..]
  }

  function At<T>(s: seq<T>, i: nat): Option<T> {
    if i < |s| then Some(s[i]) else None
  }

  lemma {:induction false} IndexIs<T>(s: seq<T>, i: nat)
    requires Distinct(s) && i < |s|
    ensures IndexOf(s, s[i]) == i
  {
  }

  lemma {:induction false} WithoutKeeps<T>(s: seq<T>, x: T, n: nat)
    requires Distinct(s) && n <= |s| && x !in s[..n]
    ensures var rest := Without(s, x);
            Distinct(rest) && x !in rest && n <= |rest| && rest[..n] == s[..n]
    ensures n < |s| && s[n] != x ==> n < |Without(s, x)| && Without(s, x)[n] == s[n]
  {
  }

  lemma {:induction false} InsertKeeps<T>(rest: seq<T>, x: T, n: nat)
    requires Distinct(rest) && x !in rest && n <= |rest|
    ensures Distinct(rest[..n] + [x] + rest[n..])
  {
  }

  /** Placing the next node: the part already in order stays, and grows by that node. */
  lemma {:induction false} PlaceNext<T>(s: seq<T>, x: T, n: nat)
    requires Distinct(s) && n <= |s| && x !in s[..n] && At(s, n) != Some(x)
    ensures var placed := InsertBefore(s, x, At(s, n));
            Distinct(placed) && n < |placed| && placed[..n + 1] == s[..n] + [x]
  {
    var rest := Without(s, x);
    WithoutKeeps(s, x, n);
    if n < |s| {
      IndexIs(rest, n);
      InsertKeeps(rest, x, n);
    } else {
      assert s[..n] == s;
      assert rest[..n] == rest == s;
      InsertKeeps(rest, x, n);
      assert rest[..n] + [x] + rest[n..] == rest + [x];
    }
  }

  function Kept<T(==)>(s: seq<T>, retained: seq<T>): seq<T> {
    if s == [] then []
    else Kept(s[..|s| - 1], retained) + (if s[|s| - 1] in retained then [s[|s| - 1]] else [])
  }

  /** What is left after pruning is exactly the nodes, when they stand in front. */
  lemma {:induction false} KeptIsRetained<T>(s: seq<T>, nodes: seq<T>)
    requires Distinct(s) && nodes <= s
    ensures Kept(s, nodes) == nodes
    decreases |s|
  {
    if |s| > |nodes| {
      var last := |s| - 1;
      assert forall i | 0 <= i < |nodes| :: nodes[i] == s[i];
      assert s[last] !in nodes;
      assert nodes <= s[..last];
      KeptIsRetained(s[..last], nodes);
    } else {
      assert s == nodes;
      KeptAll(nodes, nodes);
    }
  }

  lemma {:induction false} KeptAll<T>(s: seq<T>, nodes: seq<T>)
    requires forall x | x in s :: x in nodes
    ensures Kept(s, nodes) == s
  {
    if s != [] {
      KeptAll(s[..|s| - 1], nodes);
      assert s == s[..|s| - 1] + [s[|s| - 1]];
    }
  }

  /** One removal of the pruning loop. */
  lemma {:induction false} PruneNext<T>(snapshot: seq<T>, retained: seq<T>, i: nat)
    requires i < |snapshot|
    requires Distinct(Kept(snapshot[..i], retained) + snapshot[i..])
    ensures (var now := Kept(snapshot[..i], retained) + snapshot[i..];
             (if snapshot[i] in retained then now else Without(now, snapshot[i])) ==
             Kept(snapshot[..i + 1], retained) + snapshot[i + 1..])
  {
    var kept := Kept(snapshot[..i], retained);
    var now := kept + snapshot[i..];
    assert snapshot[..i + 1][..i] == snapshot[..i];
    assert now[|kept|] == snapshot[i];
    IndexIs(now, |kept|);
    assert now[..|kept|] == kept && now[|kept| + 1..] == snapshot[i + 1..];
  }

  // ---- the container ------------------------------------------------------------------------

  datatype Content = Group(key: Key, tooltips: seq<Tooltip>) | Placeholder

  /** A DOM node; what it shows was fixed when it was built, from the model of that moment. */
  class Node {
    const content: Content
    ghost const origin: Model

    constructor (content: Content, ghost origin: Model)
      ensures this.content == content && this.origin == origin
    {
      this.content := content;
      this.origin := origin;
    }
  }

  /** `projectGroup`: the subtree of a project, with the tooltips of its rows. */
  method ProjectGroup(project: Project, sessions: seq<Session>, model: Model) returns (node: Node)
    requires sessions == SessionsOf(model.sessions, project.id)
    ensures fresh(node) && node.origin == model && BuiltFor(node, project)
  {
    node := new Node(Group(KeyWith(model, project, sessions), TooltipsWith(model, project, sessions)), model);
  }

  /** The node shows this project as its model was when it was built. */
  ghost predicate BuiltFor(node: Node, p: Project) {
    node.content == Group(KeyOf(node.origin, p), TooltipsOf(node.origin, p))
  }

  datatype CacheEntry = CacheEntry(key: Key, node: Node)

  ghost predicate Records(entry: CacheEntry) {
    BuiltFor(entry.node, entry.key.project) && entry.key == KeyOf(entry.node.origin, entry.key.project)
  }

  class Container {
    var children: seq<Node>
    var projectNodes: map<string, CacheEntry>

    constructor ()
      ensures Valid() && children == [] && projectNodes == map[]
    {
      children, projectNodes := [], map[];
    }

    /** No node is a child twice, and the cache knows what each of its nodes shows. */
    ghost predicate Valid()
      reads this
    {
      && Distinct(children)
      && (forall id | id in projectNodes :: Records(projectNodes[id]))
      && (forall a, b | a in projectNodes && b in projectNodes && a != b ::
            projectNodes[a].node != projectNodes[b].node)
    }

    /** The insert and move loop, then pruning: the children become exactly the nodes. */
    method Reconcile(nodes: seq<Node>)
      requires Distinct(children) && Distinct(nodes)
      modifies this`children
      ensures children == nodes
    {
      for index := 0 to |nodes|
        invariant Distinct(children) && nodes[..index] <= children
      {
        var at := At(children, index);
        assert nodes[index] !in nodes[..index];
        assert children[..index] == nodes[..index];
        if at != Some(nodes[index]) {
          PlaceNext(children, nodes[index], index);
          children := InsertBefore(children, nodes[index], at);
        }
        assert nodes[..index + 1] == nodes[..index] + [nodes[index]];
      }
      assert nodes[..|nodes|] == nodes;
      Prune(nodes);
    }

    method Prune(retained: seq<Node>)
      requires Distinct(children) && retained <= children
      modifies this`children
      ensures children == retained
    {
      var snapshot := children;
      for i := 0 to |snapshot|
        invariant children == Kept(snapshot[..i], retained) + snapshot[i..]
        invariant Distinct(children)
      {
        PruneNext(snapshot, retained, i);
        if snapshot[i] !in retained {
          WithoutKeeps(children, snapshot[i], 0);
          children := Without(children, snapshot[i]);
        }
      }
      assert snapshot[..|snapshot|] == snapshot;
      KeptIsRetained(snapshot, retained);
    }

    /** The children show the model, in model order, as far as the keys tell. */
    ghost predicate Shows(model: Model)
      reads this
    {
      if model.projects == [] then
        |children| == 1 && children[0].content == Placeholder
      else
        |children| == |model.projects| && NodesShow(children, model)
    }

    /** The model has been rendered: the children show it, and the cache holds exactly them. */
    ghost predicate Rendered(model: Model)
      reads this
    {
      && Shows(model)
      && (model.projects == [] ==> projectNodes == map[])
      && (model.projects != [] ==> Indexed(projectNodes, children, model))
    }

    /** The cached entry when the project's key is unchanged, else a new one. */
    method EntryFor(model: Model, i: nat, groups: map<string, seq<Session>>) returns (entry: CacheEntry)
      requires Valid() && i < |model.projects|
      requires SessionsIn(groups, model.projects[i].id) == SessionsOf(model.sessions, model.projects[i].id)
      ensures entry.key == KeyOf(model, model.projects[i]) && Records(entry)
      ensures NodeShows(entry.node, model, model.projects[i])
      ensures if Cached(projectNodes, model, i) then entry == projectNodes[model.projects[i].id]
              else fresh(entry.node) && entry.node.origin == model
    {
      var project := model.projects[i];
      var key := KeyWith(model, project, SessionsIn(groups, project.id));
      if project.id in projectNodes && projectNodes[project.id].key == key {
        return projectNodes[project.id];
      }
      var node := ProjectGroup(project, SessionsIn(groups, project.id), model);
      return CacheEntry(key, node);
    }

    /** One node per project: the cached one when its key is unchanged, else a new one. */
    method ProjectNodes(model: Model) returns (nodes: seq<Node>, next: map<string, CacheEntry>)
      requires Valid() && DistinctIds(model.projects)
      ensures |nodes| == |model.projects| && Distinct(nodes) && NodesShow(nodes, model)
      ensures Indexed(next, nodes, model)
      ensures forall i | 0 <= i < |nodes| ::
                (if Cached(projectNodes, model, i) then nodes[i] == projectNodes[model.projects[i].id].node
                 else fresh(nodes[i]) && nodes[i].origin == model)
    {
      hide KeyOf, SessionsOf, SessionsIn, NodeShows, BuiltFor, Records, Distinct, Indexed;
      nodes, next := [], map[];
      var groups := GroupByProject(model.sessions);
      StartsDistinct<Node>();
      StartsIndexed(model);
      for i := 0 to |model.projects|
        invariant |nodes| == i && Distinct(nodes) && Indexed(next, nodes, model)
        invariant forall j | 0 <= j < i :: NodeShows(nodes[j], model, model.projects[j])
        invariant forall j | 0 <= j < i ::
                    (if Cached(projectNodes, model, j) then nodes[j] == projectNodes[model.projects[j].id].node
                     else fresh(nodes[j]) && nodes[j].origin == model)
        invariant forall j | 0 <= j < i :: allocated(nodes[j])
      {
        var project := model.projects[i];
        assert SessionsIn(groups, project.id) == SessionsOf(model.sessions, project.id);
        var entry := EntryFor(model, i, groups);
        assert entry.node !in nodes;
        DistinctSnoc(nodes, entry.node);
        IndexedNext(next, nodes, model, entry);
        next := next[project.id := entry];
        nodes := nodes + [entry.node];
      }
    }

    /** `renderTree`. */
    method RenderTree(model: Model)
      requires Valid() && DistinctIds(model.projects)
      modifies this
      ensures Valid() && Rendered(model)
      ensures forall i | 0 <= i < |model.projects| ::
                (if Cached(old(projectNodes), model, i)
                 then children[i] == old(projectNodes)[model.projects[i].id].node
                 else fresh(children[i]) && children[i].origin == model)
      ensures forall i | 0 <= i < |model.projects| && model.projects[i].id !in model.collapsed ::
                ShowsObservations(children[i], model, model.projects[i]) <==>
                !Cached(old(projectNodes), model, i)
                || SameObservations(old(projectNodes)[model.projects[i].id].node.origin, model, model.projects[i])
    {
      if |model.projects| == 0 {
        projectNodes := map[];
        var placeholder := new Node(Placeholder, model);
        children := [placeholder];
        return;
      }
      var nodes, next := ProjectNodes(model);
      forall i | 0 <= i < |model.projects| && model.projects[i].id !in model.collapsed
        ensures ShowsObservations(nodes[i], model, model.projects[i]) <==>
                !Cached(projectNodes, model, i)
                || SameObservations(projectNodes[model.projects[i].id].node.origin, model, model.projects[i])
      {
        ShowsObservationsIff(nodes[i], model, model.projects[i]);
      }
      Reconcile(nodes);
      projectNodes := next;
    }
  }

  ghost predicate DistinctIds(projects: seq<Project>) {
    forall i, j | 0 <= i < j < |projects| :: projects[i].id != projects[j].id
  }

  /** The node shows the project's keyed data, and the tooltips of the model it was built from. */
  ghost predicate NodeShows(node: Node, model: Model, p: Project) {
    BuiltFor(node, p) && KeyOf(node.origin, p) == KeyOf(model, p)
  }

  /** The rows' tooltips are those of the model. */
  ghost predicate ShowsObservations(node: Node, model: Model, p: Project) {
    node.content.Group? && node.content.tooltips == TooltipsOf(model, p)
  }

  lemma ShowsObservationsIff(node: Node, model: Model, p: Project)
    requires NodeShows(node, model, p)
    ensures ShowsObservations(node, model, p) <==>
            p.id in model.collapsed || SameObservations(node.origin, model, p)
  {
    TooltipsAgreeIff(node.origin, model, p);
  }

  ghost predicate NodesShow(nodes: seq<Node>, model: Model) {
    && |nodes| == |model.projects|
    && forall i | 0 <= i < |nodes| :: NodeShows(nodes[i], model, model.projects[i])
  }

  ghost predicate Cached(projectNodes: map<string, CacheEntry>, model: Model, i: nat)
    requires i < |model.projects|
  {
    var p := model.projects[i];
    p.id in projectNodes && projectNodes[p.id].key == KeyOf(model, p)
  }

  /** The cache holds exactly the projects that these nodes are for, each with its key and node. */
  ghost predicate Indexed(entries: map<string, CacheEntry>, nodes: seq<Node>, model: Model) {
    && |nodes| <= |model.projects|
    && (forall i | 0 <= i < |nodes| ::
          model.projects[i].id in entries
          && entries[model.projects[i].id] == CacheEntry(KeyOf(model, model.projects[i]), nodes[i]))
    && (forall id | id in entries :: exists i | 0 <= i < |nodes| :: model.projects[i].id == id)
  }

  lemma StartsIndexed(model: Model)
    ensures Indexed(map[], [], model)
  {
  }

  lemma {:induction false} IndexedNext(entries: map<string, CacheEntry>, nodes: seq<Node>, model: Model, entry: CacheEntry)
    requires DistinctIds(model.projects) && Indexed(entries, nodes, model) && |nodes| < |model.projects|
    requires entry.key == KeyOf(model, model.projects[|nodes|])
    ensures Indexed(entries[model.projects[|nodes|].id := entry], nodes + [entry.node], model)
  {
    hide KeyOf;
    var next := entries[model.projects[|nodes|].id := entry];
    forall id | id in next
      ensures exists i | 0 <= i <= |nodes| :: model.projects[i].id == id
    {
    }
  }

  /** `TreeView` with `renderTree` as its renderer: it renders only a changed model. */
  class TreeView {
    const container: Container
    var lastKey: Option<Model>

    ghost predicate Valid()
      reads this, container
    {
      container.Valid() && (lastKey.Some? ==> container.Rendered(lastKey.value))
    }

    constructor (container: Container)
      requires container.Valid()
      ensures Valid() && lastKey == None && this.container == container
    {
      this.container := container;
      lastKey := None;
    }

    method Update(model: Model) returns (rendered: bool)
      requires Valid() && DistinctIds(model.projects)
      modifies this, container
      ensures Valid() && lastKey == Some(model) && container.Rendered(model)
      ensures rendered <==> old(lastKey) != Some(model)
      ensures !rendered ==> container.children == old(container.children)
      ensures rendered ==> forall i | 0 <= i < |model.projects| ::
                (if Cached(old(container.projectNodes), model, i)
                 then container.children[i] == old(container.projectNodes)[model.projects[i].id].node
                 else fresh(container.children[i]) && container.children[i].origin == model)
      ensures forall i | 0 <= i < |model.projects| ::
                ShowsObservations(container.children[i], model, model.projects[i]) <==>
                model.projects[i].id in model.collapsed
                || SameObservations(container.children[i].origin, model, model.projects[i])
    {
      rendered := lastKey != Some(model);
      if rendered {
        lastKey := Some(model);
        container.RenderTree(model);
      }
      forall i | 0 <= i < |model.projects|
        ensures ShowsObservations(container.children[i], model, model.projects[i]) <==>
                model.projects[i].id in model.collapsed
                || SameObservations(container.children[i].origin, model, model.projects[i])
      {
        ShowsObservationsIff(container.children[i], model, model.projects[i]);
      }
    }
  }

  /**
   Two updates that differ only in the observations: the second renders, and keeps every node, with
   the tooltips of the first. `shown` is what the children show in the end.
   */
  method UpdateTwice(model: Model, observations: map<string, Observation>)
    returns (rendered: bool, kept: bool, shown: seq<Content>)
    requires DistinctIds(model.projects) && model.projects != [] && observations != model.agentObservations
    ensures rendered && kept && |shown| == |model.projects|
    ensures forall i | 0 <= i < |shown| ::
              shown[i] == Group(KeyOf(model, model.projects[i]), TooltipsOf(model, model.projects[i]))
  {
    hide KeyWith, TooltipsWith, SessionsOf;
    var container := new Container();
    var view := new TreeView(container);
    var first := view.Update(model);
    var nodes := container.children;
    var changed := model.(agentObservations := observations);
    forall i | 0 <= i < |model.projects|
      ensures KeyOf(changed, model.projects[i]) == KeyOf(model, model.projects[i])
    {
      ObservationsAreNotKeyed(model, observations, model.projects[i]);
    }
    rendered := view.Update(changed);
    kept := container.children == nodes;
    shown := seq(|nodes|, i requires 0 <= i < |nodes| => nodes[i].content);
  }

  const PROJECT := Project("p", "")
  const SESSION := Session("s", "p", "")
  const QUIET := Observation("idle", "hook", 1, None, 0, "g")
  const BUSY := Observation("working", "hook", 2, None, 0, "g")
  const BEFORE := Model([PROJECT], [SESSION], map[], map["s" := QUIET], None, {})

  /** One session that was idle and is now working: after the second update its row still says idle. */
  method StaleTooltip() returns (kept: bool, tooltips: seq<Tooltip>)
    ensures kept && tooltips == [Observed("idle", None, "hook", 1)]
    ensures tooltips != TooltipsOf(BEFORE.(agentObservations := map["s" := BUSY]), PROJECT)
  {
    assert SessionsOf([SESSION], "p") == [SESSION] by {
      assert [SESSION][..0] == [];
      assert SessionsOf([], "p") == [];
    }
    var quiet, busy := map["s" := QUIET], map["s" := BUSY];
    assert quiet["s"] != busy["s"] by { assert "idle"[0] != "working"[0]; }
    var rendered, shown;
    rendered, kept, shown := UpdateTwice(BEFORE, busy);
    tooltips := shown[0].tooltips;
    assert TooltipsOf(BEFORE, PROJECT) == [Observed("idle", None, "hook", 1)];
    assert TooltipsOf(BEFORE.(agentObservations := busy), PROJECT)[0] == Observed("working", None, "hook", 2);
  }
}
