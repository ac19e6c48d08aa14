/** The purge closure over nodes, edges and ingest items, and the deletion cascade. */
module PurgeClosure {
  import opened Outcomes

  type Id = string

  datatype Node = Node(operator: Id, createdBy: Id)
  datatype NodeVersion = NodeVersion(node: Id, event: Id)
  datatype Edge = Edge(source: Id, target: Id, createdBy: Id)
  datatype EdgeVersion = EdgeVersion(edge: Id, event: Id)
  datatype Item = Item(kept: Option<Id>, node: Id, operator: Id, session: Id, source: Id)
  datatype Event = Event(operator: Id, session: Option<Id>)
  datatype Ruling = Ruling(item: Id, event: Id)

  /** The tables the closure walks over. */
  datatype Graph = Graph(
    nodes: map<Id, Node>, nodeVersions: map<Id, NodeVersion>, edges: map<Id, Edge>, edgeVersions: map<Id, EdgeVersion>,
    items: map<Id, Item>)

  /** Nodes and items reached so far. */
  datatype Reach = Reach(nodes: set<Id>, items: set<Id>)
  {
    predicate Within(other: Reach) { nodes <= other.nodes && items <= other.items }
    function Plus(other: Reach): Reach { Reach(nodes + other.nodes, items + other.items) }
  }

  // ---------- the closure ----------

  function KeptBy(g: Graph, items: set<Id>): set<Id> {
    set i | i in items && i in g.items && g.items[i].kept.Some? :: g.items[i].kept.value
  }

  predicate ItemLinked(item: Item, nodes: set<Id>) {
    (item.kept.Some? && item.kept.value in nodes) || item.node in nodes
  }

  function ItemsLinked(g: Graph, nodes: set<Id>): set<Id> {
    set i | i in g.items && ItemLinked(g.items[i], nodes)
  }

  predicate Touches(edge: Edge, nodes: set<Id>) { edge.source in nodes || edge.target in nodes }

  function EndpointsTouching(g: Graph, nodes: set<Id>): set<Id> {
    (set e | e in g.edges && Touches(g.edges[e], nodes) :: g.edges[e].source)
    + (set e | e in g.edges && Touches(g.edges[e], nodes) :: g.edges[e].target)
  }

  /** One pass of the loop. */
  function Grow(g: Graph, r: Reach): Reach {
    var nodes := r.nodes + KeptBy(g, r.items);
    Reach(nodes + EndpointsTouching(g, nodes), r.items + ItemsLinked(g, nodes))
  }

  /** What the loop can still add. */
  function Unreached(g: Graph, r: Reach): nat {
    |KeptBy(g, g.items.Keys) + EndpointsOf(g) - r.nodes| + |g.items.Keys - r.items|
  }

  function EndpointsOf(g: Graph): set<Id> {
    (set e | e in g.edges :: g.edges[e].source) + (set e | e in g.edges :: g.edges[e].target)
  }

  lemma GrowBounds(g: Graph, r: Reach)
    ensures r.Within(Grow(g, r))
    ensures Grow(g, r).nodes <= r.nodes + (KeptBy(g, g.items.Keys) + EndpointsOf(g))
    ensures Grow(g, r).items <= r.items + g.items.Keys
  {
    assert KeptBy(g, r.items) <= KeptBy(g, g.items.Keys);
    assert forall nodes :: EndpointsTouching(g, nodes) <= EndpointsOf(g);
  }

  lemma GrowProgresses(g: Graph, r: Reach)
    requires Grow(g, r) != r
    ensures r.Within(Grow(g, r)) && Unreached(g, Grow(g, r)) < Unreached(g, r)
  {
    GrowBounds(g, r);
    var next := Grow(g, r);
    hide Grow, KeptBy, EndpointsOf;
    var possible := KeptBy(g, g.items.Keys) + EndpointsOf(g);
    ShrinksOrStays(possible, r.nodes, next.nodes);
    ShrinksOrStays(g.items.Keys, r.items, next.items);
    if next.nodes != r.nodes {
      Shrinks(possible, r.nodes, next.nodes);
    } else {
      Shrinks(g.items.Keys, r.items, next.items);
    }
  }

  lemma ShrinksOrStays(all: set<Id>, before: set<Id>, after: set<Id>)
    requires before <= after
    ensures |all - after| <= |all - before|
  {
    assert all - before == (all - after) + (all * (after - before));
  }

  lemma Shrinks(all: set<Id>, before: set<Id>, after: set<Id>)
    requires before < after <= before + all
    ensures |all - after| < |all - before|
  {
    var x :| x in after && x !in before;
    ShrinksOrStays(all, before + {x}, after);
    assert all - before == (all - (before + {x})) + {x};
  }

  function Hull(g: Graph, r: Reach): Reach
    decreases Unreached(g, r)
  {
    var next := Grow(g, r);
    if next == r then r
    else
      GrowProgresses(g, r);
      Hull(g, next)
  }

  method Closure(g: Graph, seeds: Reach) returns (r: Reach)
    ensures r == Hull(g, seeds)
  {
    var nodes, items := seeds.nodes, seeds.items;
    while true
      invariant Hull(g, Reach(nodes, items)) == Hull(g, seeds)
      decreases Unreached(g, Reach(nodes, items))
    {
      ghost var before := Reach(nodes, items);
      var nodes0, items0 := nodes, items;
      nodes := nodes + KeptBy(g, items);
      items := items + ItemsLinked(g, nodes);
      nodes := nodes + EndpointsTouching(g, nodes);
      if nodes == nodes0 && items == items0 {
        break;
      }
      assert Reach(nodes, items) == Grow(g, before);
      GrowProgresses(g, before);
    }
    r := Reach(nodes, items);
  }

  /** Nothing outside is linked to anything inside. */
  ghost predicate Closed(g: Graph, r: Reach) {
    && (forall i | i in r.items && i in g.items && g.items[i].kept.Some? :: g.items[i].kept.value in r.nodes)
    && (forall i | i in g.items && (g.items[i].node in r.nodes || (g.items[i].kept.Some? && g.items[i].kept.value in r.nodes)) :: i in r.items)
    && (forall e | e in g.edges && (g.edges[e].source in r.nodes || g.edges[e].target in r.nodes) ::
          g.edges[e].source in r.nodes && g.edges[e].target in r.nodes)
  }

  lemma ClosedIffStable(g: Graph, r: Reach)
    ensures Closed(g, r) <==> Grow(g, r) == r
  {
    if Grow(g, r) == r {
      assert KeptBy(g, r.items) <= r.nodes;
      assert r.nodes + KeptBy(g, r.items) == r.nodes;
      assert EndpointsTouching(g, r.nodes) <= r.nodes && ItemsLinked(g, r.nodes) <= r.items;
      forall i | i in r.items && i in g.items && g.items[i].kept.Some?
        ensures g.items[i].kept.value in r.nodes
      {
        assert g.items[i].kept.value in KeptBy(g, r.items);
      }
      forall e | e in g.edges && Touches(g.edges[e], r.nodes)
        ensures g.edges[e].source in r.nodes && g.edges[e].target in r.nodes
      {
        assert g.edges[e].source in EndpointsTouching(g, r.nodes) && g.edges[e].target in EndpointsTouching(g, r.nodes);
      }
      forall i | i in g.items && ItemLinked(g.items[i], r.nodes)
        ensures i in r.items
      {
        assert i in ItemsLinked(g, r.nodes);
      }
    }
    if Closed(g, r) {
      assert KeptBy(g, r.items) <= r.nodes;
      assert r.nodes + KeptBy(g, r.items) == r.nodes;
      assert EndpointsTouching(g, r.nodes) <= r.nodes && ItemsLinked(g, r.nodes) <= r.items;
    }
  }

  lemma GrowStaysWithin(g: Graph, r: Reach, limit: Reach)
    requires Closed(g, limit) && r.Within(limit)
    ensures Grow(g, r).Within(limit)
  {
    var nodes := r.nodes + KeptBy(g, r.items);
    assert nodes <= limit.nodes;
    assert EndpointsTouching(g, nodes) <= limit.nodes;
  }

  /** The loop returns the least closed set that contains its seeds. */
  lemma {:induction false} HullIsLeast(g: Graph, seeds: Reach)
    ensures seeds.Within(Hull(g, seeds)) && Closed(g, Hull(g, seeds))
    ensures forall r: Reach | seeds.Within(r) && Closed(g, r) :: Hull(g, seeds).Within(r)
    decreases Unreached(g, seeds)
  {
    var next := Grow(g, seeds);
    ClosedIffStable(g, seeds);
    if next != seeds {
      GrowProgresses(g, seeds);
      HullIsLeast(g, next);
      forall r: Reach | seeds.Within(r) && Closed(g, r)
        ensures Hull(g, seeds).Within(r)
      {
        GrowStaysWithin(g, seeds, r);
      }
    }
  }

  // ---------- deletion ----------

  function EdgesTouching(g: Graph, nodes: set<Id>): set<Id> {
    set e | e in g.edges && Touches(g.edges[e], nodes)
  }

  function VersionsOutside(rows: map<Id, NodeVersion>, nodes: set<Id>): map<Id, NodeVersion> {
    map v | v in rows && rows[v].node !in nodes :: rows[v]
  }

  function EdgeVersionsOutside(rows: map<Id, EdgeVersion>, edges: set<Id>): map<Id, EdgeVersion> {
    map v | v in rows && rows[v].edge !in edges :: rows[v]
  }

  function Remove(g: Graph, r: Reach): Graph {
    var edges := EdgesTouching(g, r.nodes);
    Graph(g.nodes - r.nodes, VersionsOutside(g.nodeVersions, r.nodes), g.edges - edges,
          EdgeVersionsOutside(g.edgeVersions, edges), g.items - r.items)
  }

  /** Every reference between the tables resolves. */
  ghost predicate Intact(g: Graph) {
    && (forall v | v in g.nodeVersions :: g.nodeVersions[v].node in g.nodes)
    && (forall e | e in g.edges :: g.edges[e].source in g.nodes && g.edges[e].target in g.nodes)
    && (forall v | v in g.edgeVersions :: g.edgeVersions[v].edge in g.edges)
  }

  /** Removing a closed set leaves nothing pointing at what was removed, and keeps
      every survivor: an edge goes exactly when both its ends go. */
  lemma RemovalIsClean(g: Graph, r: Reach)
    requires Intact(g) && Closed(g, r)
    ensures var after := Remove(g, r);
      && Intact(after)
      && (forall i | i in after.items :: !ItemLinked(after.items[i], r.nodes))
      && (forall e | e in g.edges :: e in after.edges <==> g.edges[e].source in after.nodes && g.edges[e].target in after.nodes)
      && (forall e | e in g.edges :: e !in after.edges ==> g.edges[e].source in r.nodes && g.edges[e].target in r.nodes)
      && (forall v | v in g.nodeVersions :: v in after.nodeVersions <==> g.nodeVersions[v].node in after.nodes)
      && (forall v | v in g.edgeVersions :: v in after.edgeVersions <==> g.edgeVersions[v].edge in after.edges)
  {
  }

  /** A node-scope purge; a scope that no longer exists is refused and changes nothing. */
  function PurgeNode(g: Graph, scope: Id): Graph {
    if scope in g.nodes then Remove(g, Hull(g, Reach({scope}, {}))) else g
  }

  lemma ClosedInRest(g: Graph, a: Reach, b: Reach)
    requires Closed(g, a) && Closed(Remove(g, a), b)
    ensures Closed(g, a.Plus(b))
  {
    var rest := Remove(g, a);
    var both := a.Plus(b);
    forall e | e in g.edges && Touches(g.edges[e], both.nodes)
      ensures g.edges[e].source in both.nodes && g.edges[e].target in both.nodes
    {
      if !Touches(g.edges[e], a.nodes) {
        assert e in rest.edges && Touches(rest.edges[e], b.nodes);
      }
    }
    forall i | i in both.items && i in g.items && g.items[i].kept.Some?
      ensures g.items[i].kept.value in both.nodes
    {
      if i !in a.items {
        assert i in rest.items;
      }
    }
    forall i | i in g.items && ItemLinked(g.items[i], both.nodes)
      ensures i in both.items
    {
      if i !in a.items {
        assert i in rest.items && ItemLinked(rest.items[i], b.nodes);
      }
    }
  }

  lemma ClosedShrinks(g: Graph, a: Reach, b: Reach)
    requires Closed(g, a) && Closed(g, b)
    ensures Closed(Remove(g, a), b)
    ensures Closed(g, a.Plus(b))
  {
  }

  /** Purging a, then b: together they remove exactly both hulls of the original graph. */
  lemma SecondPurgeRemovesTheRest(g: Graph, a: Id, b: Id)
    requires Intact(g) && a in g.nodes && b in g.nodes
    ensures PurgeNode(PurgeNode(g, a), b) == Remove(g, Hull(g, Reach({a}, {})).Plus(Hull(g, Reach({b}, {}))))
  {
    var ra, rb := Reach({a}, {}), Reach({b}, {});
    var ha, hb := Hull(g, ra), Hull(g, rb);
    HullIsLeast(g, ra);
    HullIsLeast(g, rb);
    var rest := Remove(g, ha);
    if b in ha.nodes {
      assert hb.Within(ha);
      assert ha.Plus(hb) == ha;
      assert b !in rest.nodes;
    } else {
      assert b in rest.nodes;
      HullOfRest(g, ha, hb, b);
      RemoveTwice(g, ha, Hull(rest, rb));
    }
  }

  lemma HullOfRest(g: Graph, ha: Reach, hb: Reach, b: Id)
    requires Closed(g, ha) && hb == Hull(g, Reach({b}, {}))
    ensures ha.Plus(Hull(Remove(g, ha), Reach({b}, {}))) == ha.Plus(hb)
  {
    var rest, rb := Remove(g, ha), Reach({b}, {});
    var hr := Hull(rest, rb);
    HullIsLeast(g, rb);
    HullIsLeast(rest, rb);
    ClosedInRest(g, ha, hr);
    ClosedShrinks(g, ha, hb);
    PlusAbsorbs(ha, hr, hb);
  }

  lemma PlusAbsorbs(a: Reach, b: Reach, c: Reach)
    requires c.Within(a.Plus(b)) && b.Within(c)
    ensures a.Plus(b) == a.Plus(c)
  {
  }

  lemma RemoveTwice(g: Graph, a: Reach, b: Reach)
    ensures Remove(Remove(g, a), b) == Remove(g, a.Plus(b))
  {
    var once := Remove(g, a);
    var twice, whole := Remove(once, b), Remove(g, a.Plus(b));
    assert EdgesTouching(g, a.Plus(b).nodes) == EdgesTouching(g, a.nodes) + EdgesTouching(g, b.nodes);
    assert EdgesTouching(once, b.nodes) == EdgesTouching(g, b.nodes) - EdgesTouching(g, a.nodes);
    assert twice.edges == whole.edges;
    assert twice.nodeVersions == whole.nodeVersions;
    assert twice.edgeVersions == whole.edgeVersions;
  }

  /** Node-scope purges commute, whatever they share. */
  lemma NodePurgesCommute(g: Graph, a: Id, b: Id)
    requires Intact(g)
    ensures PurgeNode(PurgeNode(g, a), b) == PurgeNode(PurgeNode(g, b), a)
  {
    if a in g.nodes && b in g.nodes {
      SecondPurgeRemovesTheRest(g, a, b);
      SecondPurgeRemovesTheRest(g, b, a);
      var ha, hb := Hull(g, Reach({a}, {})), Hull(g, Reach({b}, {}));
      assert ha.Plus(hb) == hb.Plus(ha);
    }
  }

  // ---------- the whole purge ----------

  datatype Class = SourceScope | NodeScope | OperatorScope | SessionScope

  /** A semantic relation version, and a correction or contest event. */
  datatype Relation = Relation(source: Id, target: Id)
  datatype Subject = Subject(record: Id, event: Id)

  /** The semantic tables: node versions with their artifact bytes and business
      partitions, relation versions with their business policies, confidence heads from
      assessment to subject version, correction and contest events. */
  datatype Semantic = Semantic(
    nodes: set<Id>, artifacts: set<Id>, businessNodes: set<Id>, relations: map<Id, Relation>, businessRelations: set<Id>,
    heads: map<Id, Id>, corrections: map<Id, Subject>, contests: map<Id, Subject>)

  /** `firsts` are the feedback deduplication rows with their first event. */
  datatype Store = Store(
    graph: Graph, events: map<Id, Event>, receipts: map<Id, Id>, rulings: map<Id, Ruling>, firsts: map<Id, Id>,
    dispositions: set<(Id, Id)>, semantic: Semantic)

  datatype Scope = Scope(class_: Class, reach: Reach, events: set<Id>)

  function NodesOfEvents(g: Graph, events: set<Id>): set<Id> {
    (set v | v in g.nodeVersions && g.nodeVersions[v].event in events :: g.nodeVersions[v].node)
    + (set n | n in g.nodes && g.nodes[n].createdBy in events)
  }

  function ItemsOfSource(g: Graph, scope: Id): set<Id> { set i | i in g.items && g.items[i].source == scope }

  function ItemsOfOperator(g: Graph, scope: Id): set<Id> { set i | i in g.items && g.items[i].operator == scope }

  function ItemsOfSession(g: Graph, scope: Id): set<Id> { set i | i in g.items && g.items[i].session == scope }

  function EventsOfOperator(s: Store, scope: Id): set<Id> { set e | e in s.events && s.events[e].operator == scope }

  function EventsOfSession(s: Store, scope: Id): set<Id> { set e | e in s.events && s.events[e].session == Some(scope) }

  function NodesOfOperator(g: Graph, scope: Id): set<Id> { set n | n in g.nodes && g.nodes[n].operator == scope }

  /** What a scope names: a source first, then a node, an operator, a session. */
  function Resolve(s: Store, scope: Id): Result<Scope> {
    var g := s.graph;
    var ofSource, ofOperator, ofSession := ItemsOfSource(g, scope), ItemsOfOperator(g, scope), ItemsOfSession(g, scope);
    var operatorEvents, sessionEvents := EventsOfOperator(s, scope), EventsOfSession(s, scope);
    if scope in s.receipts || ofSource != {} then
      var events := if scope in s.receipts then {s.receipts[scope]} else {};
      Ok(Scope(SourceScope, Reach(NodesOfEvents(g, events), ofSource), events))
    else if scope in g.nodes then Ok(Scope(NodeScope, Reach({scope}, {}), {}))
    else if operatorEvents != {} || ofOperator != {} then
      var nodes := NodesOfOperator(g, scope);
      Ok(Scope(OperatorScope, Reach(if nodes == {} then NodesOfEvents(g, operatorEvents) else nodes, ofOperator), operatorEvents))
    else if sessionEvents != {} || ofSession != {} then
      Ok(Scope(SessionScope, Reach(NodesOfEvents(g, sessionEvents), ofSession), sessionEvents))
    else Rejected
  }

  function EventsOf(s: Store, seeds: set<Id>, r: Reach): set<Id> {
    var edges := EdgesTouching(s.graph, r.nodes);
    seeds
    + (set v | v in s.graph.nodeVersions && s.graph.nodeVersions[v].node in r.nodes :: s.graph.nodeVersions[v].event)
    + (set v | v in s.graph.edgeVersions && s.graph.edgeVersions[v].edge in edges :: s.graph.edgeVersions[v].event)
    + (set d | d in s.dispositions && d.1 in r.nodes :: d.0)
    + (set u | u in s.rulings && s.rulings[u].item in r.items :: s.rulings[u].event)
  }

  /** Every reference to an event resolves. */
  predicate EventsResolve(g: Graph, receipts: map<Id, Id>, rulings: map<Id, Ruling>, firsts: map<Id, Id>, events: set<Id>) {
    && (forall n | n in g.nodes :: g.nodes[n].createdBy in events)
    && (forall v | v in g.nodeVersions :: g.nodeVersions[v].event in events)
    && (forall e | e in g.edges :: g.edges[e].createdBy in events)
    && (forall v | v in g.edgeVersions :: g.edgeVersions[v].event in events)
    && (forall r | r in receipts :: receipts[r] in events)
    && (forall u | u in rulings :: rulings[u].event in events)
    && (forall f | f in firsts :: firsts[f] in events)
  }

  /** Every reference between the semantic tables, and from them, resolves. */
  predicate SemanticResolves(m: Semantic, versions: set<Id>, events: set<Id>) {
    && m.nodes <= versions && m.artifacts <= m.nodes && m.businessNodes <= m.nodes && m.heads.Keys <= m.nodes
    && m.businessRelations <= m.relations.Keys
    && (forall c | c in m.corrections :: m.corrections[c].event in events)
    && (forall c | c in m.contests :: m.contests[c].event in events)
  }

  /** The foreign keys of the store. */
  predicate References(s: Store) {
    && EventsResolve(s.graph, s.receipts, s.rulings, s.firsts, s.events.Keys)
    && SemanticResolves(s.semantic, s.graph.nodeVersions.Keys, s.events.Keys)
  }

  function VersionsOf(g: Graph, nodes: set<Id>): set<Id> {
    set v | v in g.nodeVersions && g.nodeVersions[v].node in nodes
  }

  function RelationsOf(m: Semantic, versions: set<Id>): set<Id> {
    set r | r in m.relations && (m.relations[r].source in versions || m.relations[r].target in versions)
  }

  function SubjectsOutside(rows: map<Id, Subject>, nodes: set<Id>): map<Id, Subject> {
    map c | c in rows && rows[c].record !in nodes :: rows[c]
  }

  function HeadsOutside(heads: map<Id, Id>, versions: set<Id>): map<Id, Id> {
    map h | h in heads && h !in versions && heads[h] !in versions :: heads[h]
  }

  /** The business tables are not among those the purge deletes from. */
  function SemanticOutside(m: Semantic, versions: set<Id>, nodes: set<Id>): Semantic {
    if versions == {} then m
    else m.(relations := m.relations - RelationsOf(m, versions), heads := HeadsOutside(m.heads, versions),
            artifacts := m.artifacts - versions, nodes := m.nodes - versions,
            corrections := SubjectsOutside(m.corrections, nodes), contests := SubjectsOutside(m.contests, nodes))
  }

  function ReceiptsOutside(rows: map<Id, Id>, events: set<Id>): map<Id, Id> {
    map r | r in rows && rows[r] !in events :: rows[r]
  }

  function EventRulingsOutside(rows: map<Id, Ruling>, events: set<Id>): map<Id, Ruling> {
    map u | u in rows && rows[u].event !in events :: rows[u]
  }

  function ItemRulingsOutside(rows: map<Id, Ruling>, items: set<Id>): map<Id, Ruling> {
    map u | u in rows && rows[u].item !in items :: rows[u]
  }

  function Deleted(s: Store, r: Reach, events: set<Id>): Store {
    Store(Remove(s.graph, r), s.events - events, ReceiptsOutside(s.receipts, events),
          ItemRulingsOutside(EventRulingsOutside(s.rulings, events), r.items), ReceiptsOutside(s.firsts, events),
          (set d | d in s.dispositions && d.0 !in events),
          SemanticOutside(s.semantic, VersionsOf(s.graph, r.nodes), r.nodes))
  }

  /** The purge of one scope; a foreign key left dangling undoes all of it. */
  function HardPurge(s: Store, scope: Id): Result<Store> {
    var found :- Resolve(s, scope);
    var r := Hull(s.graph, found.reach);
    var events := EventsOf(s, found.events, r);
    var after := Deleted(s, r, events);
    :- Check(References(after));
    Ok(after)
  }

  /** Whether a row of the graph that survives refers to a removed event. */
  ghost predicate SharesEvent(s: Store, r: Reach, events: set<Id>) {
    || (exists n :: n in s.graph.nodes && n !in r.nodes && s.graph.nodes[n].createdBy in events)
    || (exists v :: v in s.graph.nodeVersions && s.graph.nodeVersions[v].node !in r.nodes && s.graph.nodeVersions[v].event in events)
    || (exists e :: e in s.graph.edges && !Touches(s.graph.edges[e], r.nodes) && s.graph.edges[e].createdBy in events)
    || (exists v :: v in s.graph.edgeVersions && s.graph.edgeVersions[v].edge !in EdgesTouching(s.graph, r.nodes)
          && s.graph.edgeVersions[v].event in events)
  }

  /** Whether a correction or contest that survives refers to a removed event; those of
      removed nodes go, unless no node version goes at all. */
  ghost predicate SharesSubject(rows: map<Id, Subject>, versions: set<Id>, nodes: set<Id>, events: set<Id>) {
    exists c :: c in rows && (versions == {} || rows[c].record !in nodes) && rows[c].event in events
  }

  /** Whether a business row refers to a semantic row that goes. */
  ghost predicate HeldByBusiness(m: Semantic, versions: set<Id>) {
    || (exists b :: b in m.businessNodes && b in versions)
    || (exists b :: b in m.businessRelations && b in RelationsOf(m, versions))
  }

  /** A resolved purge succeeds exactly when no surviving row shares an event with what
      goes and no removed version, nor a relation of one, is a business one. */
  lemma PurgeSucceedsExactly(s: Store, scope: Id)
    requires References(s) && Resolve(s, scope).Ok?
    ensures var found := Resolve(s, scope).value; var r := Hull(s.graph, found.reach);
      var events, versions := EventsOf(s, found.events, r), VersionsOf(s.graph, r.nodes);
      HardPurge(s, scope).Ok? <==>
        && !SharesEvent(s, r, events)
        && !SharesSubject(s.semantic.corrections, versions, r.nodes, events)
        && !SharesSubject(s.semantic.contests, versions, r.nodes, events)
        && !HeldByBusiness(s.semantic, versions)
  {
    hide Resolve, EventsOf, Hull, Deleted, EventsResolve, SemanticResolves, SharesEvent, SharesSubject, HeldByBusiness, VersionsOf;
    var found := Resolve(s, scope).value;
    var r := Hull(s.graph, found.reach);
    var events := EventsOf(s, found.events, r);
    ResolvesUnlessShared(s, r, events);
    SemanticResolvesExactly(s, r, events);
  }

  lemma ResolvesUnlessShared(s: Store, r: Reach, events: set<Id>)
    requires EventsResolve(s.graph, s.receipts, s.rulings, s.firsts, s.events.Keys)
    ensures var after := Deleted(s, r, events);
      EventsResolve(after.graph, after.receipts, after.rulings, after.firsts, after.events.Keys) <==> !SharesEvent(s, r, events)
  {
    hide SemanticOutside;
    var after := Deleted(s, r, events);
    if SharesEvent(s, r, events) {
      if n :| n in s.graph.nodes && n !in r.nodes && s.graph.nodes[n].createdBy in events {
        assert n in after.graph.nodes && after.graph.nodes[n].createdBy !in after.events.Keys;
      } else if v :| v in s.graph.nodeVersions && s.graph.nodeVersions[v].node !in r.nodes && s.graph.nodeVersions[v].event in events {
        assert v in after.graph.nodeVersions && after.graph.nodeVersions[v].event !in after.events.Keys;
      } else if e :| e in s.graph.edges && !Touches(s.graph.edges[e], r.nodes) && s.graph.edges[e].createdBy in events {
        assert e in after.graph.edges && after.graph.edges[e].createdBy !in after.events.Keys;
      } else {
        var v :| v in s.graph.edgeVersions && s.graph.edgeVersions[v].edge !in EdgesTouching(s.graph, r.nodes)
          && s.graph.edgeVersions[v].event in events;
        assert v in after.graph.edgeVersions && after.graph.edgeVersions[v].event !in after.events.Keys;
      }
    }
  }

  lemma SubjectsResolveExactly(rows: map<Id, Subject>, versions: set<Id>, nodes: set<Id>, all: set<Id>, events: set<Id>)
    requires forall c | c in rows :: rows[c].event in all
    ensures var after := if versions == {} then rows else SubjectsOutside(rows, nodes);
      (forall c | c in after :: after[c].event in all - events) <==> !SharesSubject(rows, versions, nodes, events)
  {
    var after := if versions == {} then rows else SubjectsOutside(rows, nodes);
    if c :| c in rows && (versions == {} || rows[c].record !in nodes) && rows[c].event in events {
      assert c in after && after[c].event !in all - events;
    }
  }

  lemma SemanticResolvesExactly(s: Store, r: Reach, events: set<Id>)
    requires SemanticResolves(s.semantic, s.graph.nodeVersions.Keys, s.events.Keys)
    ensures var after := Deleted(s, r, events); var versions := VersionsOf(s.graph, r.nodes);
      SemanticResolves(after.semantic, after.graph.nodeVersions.Keys, after.events.Keys) <==>
        && !SharesSubject(s.semantic.corrections, versions, r.nodes, events)
        && !SharesSubject(s.semantic.contests, versions, r.nodes, events)
        && !HeldByBusiness(s.semantic, versions)
  {
    var m, versions := s.semantic, VersionsOf(s.graph, r.nodes);
    var after := Deleted(s, r, events);
    SubjectsResolveExactly(m.corrections, versions, r.nodes, s.events.Keys, events);
    SubjectsResolveExactly(m.contests, versions, r.nodes, s.events.Keys, events);
    assert after.events.Keys == s.events.Keys - events;
    assert after.graph.nodeVersions.Keys == s.graph.nodeVersions.Keys - versions;
    hide SubjectsOutside, SharesSubject, Remove, VersionsOf, ReceiptsOutside, EventRulingsOutside, ItemRulingsOutside;
    BusinessResolvesExactly(m, after.semantic, versions, r.nodes);
  }

  lemma BusinessResolvesExactly(m: Semantic, after: Semantic, versions: set<Id>, nodes: set<Id>)
    requires after == SemanticOutside(m, versions, nodes)
    requires m.artifacts <= m.nodes && m.businessNodes <= m.nodes && m.heads.Keys <= m.nodes && m.businessRelations <= m.relations.Keys
    ensures after.nodes == m.nodes - versions && after.artifacts <= after.nodes && after.heads.Keys <= after.nodes
    ensures (after.businessNodes <= after.nodes && after.businessRelations <= after.relations.Keys) <==> !HeldByBusiness(m, versions)
  {
    assert versions == {} ==> RelationsOf(m, versions) == {};
    if b :| b in m.businessNodes && b in versions {
      assert b in after.businessNodes && b !in after.nodes;
    }
    if b :| b in m.businessRelations && b in RelationsOf(m, versions) {
      assert b in after.businessRelations && b !in after.relations.Keys;
    }
  }

  /** A store with one node, its version and one event. */
  function OneNode(n: Id, v: Id, e: Id, o: Id, semantic: Semantic): Store {
    Store(Graph(map[n := Node(o, e)], map[v := NodeVersion(n, e)], map[], map[], map[]),
          map[e := Event(o, None)], map[], map[], map[], {}, semantic)
  }

  const NoSemantic: Semantic := Semantic({}, {}, {}, map[], {}, map[], map[], map[])

  lemma NoSource(g: Graph, x: Id)
    requires forall i | i in g.items :: g.items[i].source != x
    ensures (set i | i in g.items && g.items[i].source == x) == {}
  {
  }

  lemma OneNodeInOrder(n: Id, v: Id, e: Id, o: Id, b: Id)
    ensures var m := NoSemantic.(nodes := {v}, businessNodes := {v}); References(OneNode(n, v, e, o, m)) && HeldByBusiness(m, {v})
    ensures var m := NoSemantic.(nodes := {v}, relations := map[b := Relation(v, v)], businessRelations := {b});
      References(OneNode(n, v, e, o, m)) && HeldByBusiness(m, {v})
    ensures forall m :: Intact(OneNode(n, v, e, o, m).graph)
  {
    assert v in NoSemantic.(nodes := {v}, businessNodes := {v}).businessNodes;
    var m := NoSemantic.(nodes := {v}, relations := map[b := Relation(v, v)], businessRelations := {b});
    assert b in m.businessRelations && b in RelationsOf(m, {v});
  }

  lemma OneNodeHull(n: Id, v: Id, e: Id, o: Id, m: Semantic)
    ensures var s := OneNode(n, v, e, o, m);
      && Resolve(s, n) == Ok(Scope(NodeScope, Reach({n}, {}), {}))
      && VersionsOf(s.graph, Hull(s.graph, Reach({n}, {})).nodes) == {v}
      && forall events :: !SharesEvent(s, Hull(s.graph, Reach({n}, {})), events)
  {
    var s := OneNode(n, v, e, o, m);
    NoSource(s.graph, n);
    HullIsLeast(s.graph, Reach({n}, {}));
    hide Hull;
    assert v in VersionsOf(s.graph, Hull(s.graph, Reach({n}, {})).nodes);
  }

  /** Purging a node with a business version is rolled back, although the store is in
      order and nothing that survives shares an event with it. */
  lemma BusinessNodeBlocksPurge(n: Id, v: Id, e: Id, o: Id)
    ensures var s := OneNode(n, v, e, o, NoSemantic.(nodes := {v}, businessNodes := {v}));
      && References(s) && Intact(s.graph) && Resolve(s, n).Ok? && HardPurge(s, n).Rejected?
      && forall events :: !SharesEvent(s, Hull(s.graph, Resolve(s, n).value.reach), events)
  {
    var m := NoSemantic.(nodes := {v}, businessNodes := {v});
    hide Resolve, Hull, EventsOf, SharesEvent, VersionsOf, HardPurge, HeldByBusiness, References, Intact;
    OneNodeHull(n, v, e, o, m);
    OneNodeInOrder(n, v, e, o, "");
    PurgeSucceedsExactly(OneNode(n, v, e, o, m), n);
  }

  /** So is purging a node at an end of a business relation. */
  lemma BusinessRelationBlocksPurge(n: Id, v: Id, e: Id, o: Id, b: Id)
    ensures var s := OneNode(n, v, e, o, NoSemantic.(nodes := {v}, relations := map[b := Relation(v, v)], businessRelations := {b}));
      && References(s) && Intact(s.graph) && Resolve(s, n).Ok? && HardPurge(s, n).Rejected?
      && forall events :: !SharesEvent(s, Hull(s.graph, Resolve(s, n).value.reach), events)
  {
    var m := NoSemantic.(nodes := {v}, relations := map[b := Relation(v, v)], businessRelations := {b});
    hide Resolve, Hull, EventsOf, SharesEvent, VersionsOf, HardPurge, HeldByBusiness, References, Intact;
    OneNodeHull(n, v, e, o, m);
    OneNodeInOrder(n, v, e, o, b);
    PurgeSucceedsExactly(OneNode(n, v, e, o, m), n);
  }

  /** Success leaves every reference in the store resolved. */
  lemma PurgeKeepsReferences(s: Store, scope: Id)
    requires Intact(s.graph) && HardPurge(s, scope).Ok?
    ensures var after := HardPurge(s, scope).value; Intact(after.graph) && References(after)
  {
    hide Resolve, EventsOf, References;
    var r := Hull(s.graph, Resolve(s, scope).value.reach);
    HullIsLeast(s.graph, Resolve(s, scope).value.reach);
    RemovalIsClean(s.graph, r);
  }

  // ---------- whole node purges in turn ----------

  /** The text names no source, operator or session. */
  predicate NamesNodeOnly(s: Store, x: Id) {
    && x !in s.receipts
    && (forall i | i in s.graph.items :: x !in {s.graph.items[i].source, s.graph.items[i].operator, s.graph.items[i].session})
    && (forall e | e in s.events :: s.events[e].operator != x && s.events[e].session != Some(x))
  }

  /** A purge; a refused one, or one rolled back, changes nothing. */
  function AfterPurge(s: Store, x: Id): Store { if HardPurge(s, x).Ok? then HardPurge(s, x).value else s }

  /** If the node is there, its purge is not rolled back. */
  predicate Commits(s: Store, x: Id) { x in s.graph.nodes ==> HardPurge(s, x).Ok? }

  lemma NodeResolves(s: Store, x: Id)
    requires NamesNodeOnly(s, x)
    ensures Resolve(s, x) == if x in s.graph.nodes then Ok(Scope(NodeScope, Reach({x}, {}), {})) else Rejected
  {
    assert ItemsOfSource(s.graph, x) == ItemsOfOperator(s.graph, x) == ItemsOfSession(s.graph, x) == {};
    assert EventsOfOperator(s, x) == EventsOfSession(s, x) == {};
  }

  lemma PurgeKeepsNames(s: Store, r: Reach, events: set<Id>, x: Id)
    requires NamesNodeOnly(s, x)
    ensures NamesNodeOnly(Deleted(s, r, events), x)
  {
    hide SemanticOutside;
  }

  lemma CommittedPurge(s: Store, x: Id, y: Id)
    requires NamesNodeOnly(s, x) && Commits(s, x) && NamesNodeOnly(s, y)
    ensures AfterPurge(s, x).graph == PurgeNode(s.graph, x) && NamesNodeOnly(AfterPurge(s, x), y)
  {
    NodeResolves(s, x);
    hide Resolve, EventsOf, References, Hull, NamesNodeOnly, Remove, SemanticOutside;
    if x in s.graph.nodes {
      var r := Hull(s.graph, Reach({x}, {}));
      PurgeKeepsNames(s, r, EventsOf(s, {}, r), y);
    }
  }

  /** Whole node purges commute on nodes, edges, versions and items when none of them is rolled back. */
  lemma CommittedPurgesCommute(s: Store, a: Id, b: Id)
    requires Intact(s.graph) && NamesNodeOnly(s, a) && NamesNodeOnly(s, b)
    requires Commits(s, a) && Commits(AfterPurge(s, a), b) && Commits(s, b) && Commits(AfterPurge(s, b), a)
    ensures AfterPurge(AfterPurge(s, a), b).graph == AfterPurge(AfterPurge(s, b), a).graph
  {
    hide HardPurge, NamesNodeOnly, PurgeNode, AfterPurge, Commits;
    CommittedPurge(s, a, b);
    CommittedPurge(AfterPurge(s, a), b, b);
    CommittedPurge(s, b, a);
    CommittedPurge(AfterPurge(s, b), a, a);
    NodePurgesCommute(s.graph, a, b);
  }

  lemma LoneHull(g: Graph, x: Id)
    requires g.edges == map[] && g.items == map[]
    ensures Hull(g, Reach({x}, {})) == Reach({x}, {})
  {
    HullIsLeast(g, Reach({x}, {}));
    assert Closed(g, Reach({x}, {}));
  }

  /** Purging a node that stands alone and has one version, v. */
  lemma LonePurge(s: Store, x: Id, v: Id)
    requires s.graph.edges == map[] && s.graph.items == map[] && s.dispositions == {} && s.rulings == map[]
    requires NamesNodeOnly(s, x) && x in s.graph.nodes && VersionsOf(s.graph, {x}) == {v}
    ensures v in s.graph.nodeVersions
    ensures var after := Deleted(s, Reach({x}, {}), {s.graph.nodeVersions[v].event});
      HardPurge(s, x) == if References(after) then Ok(after) else Rejected
  {
    assert v in VersionsOf(s.graph, {x});
    NodeResolves(s, x);
    LoneHull(s.graph, x);
    assert EventsOf(s, {}, Reach({x}, {})) == {s.graph.nodeVersions[v].event} by {
      assert forall w | w in s.graph.nodeVersions && s.graph.nodeVersions[w].node == x :: w in VersionsOf(s.graph, {x});
    }
    hide Resolve, Hull, EventsOf, References, Deleted;
  }

  /** Two nodes, their versions, three events and an operator, all with different names. */
  datatype Names = Names(a: Id, b: Id, va: Id, vb: Id, one: Id, two: Id, three: Id, operator: Id)
  {
    predicate Different() {
      && a != b && a != operator && b != operator && va != vb && one != two && one != three && two != three
    }
  }

  /** Node a has a version from the event that created node b. */
  function TwoNodes(n: Names): Store {
    Store(Graph(map[n.a := Node(n.operator, n.one), n.b := Node(n.operator, n.two)],
                map[n.va := NodeVersion(n.a, n.two), n.vb := NodeVersion(n.b, n.three)], map[], map[], map[]),
          map[n.one := Event(n.operator, None), n.two := Event(n.operator, None), n.three := Event(n.operator, None)],
          map[], map[], map[], {}, NoSemantic)
  }

  /** The same without node b. */
  function OnlyA(n: Names): Store {
    Store(Graph(map[n.a := Node(n.operator, n.one)], map[n.va := NodeVersion(n.a, n.two)], map[], map[], map[]),
          map[n.one := Event(n.operator, None), n.two := Event(n.operator, None)], map[], map[], map[], {}, NoSemantic)
  }

  lemma NamesInOrder(n: Names)
    requires n.Different()
    ensures NamesNodeOnly(TwoNodes(n), n.a) && NamesNodeOnly(TwoNodes(n), n.b) && NamesNodeOnly(OnlyA(n), n.a)
    ensures VersionsOf(TwoNodes(n).graph, {n.a}) == {n.va} && VersionsOf(TwoNodes(n).graph, {n.b}) == {n.vb}
    ensures VersionsOf(OnlyA(n).graph, {n.a}) == {n.va}
  {
  }

  lemma ReferencesOfTwo(n: Names)
    requires n.Different()
    ensures References(TwoNodes(n)) && Intact(TwoNodes(n).graph) && References(OnlyA(n))
  {
  }

  lemma DanglingB(n: Names)
    requires n.Different()
    ensures !References(Deleted(TwoNodes(n), Reach({n.a}, {}), {n.two}))
  {
    var after := Deleted(TwoNodes(n), Reach({n.a}, {}), {n.two});
    hide SemanticResolves, SemanticOutside, ReceiptsOutside, EventRulingsOutside, ItemRulingsOutside;
    assert n.b in after.graph.nodes && after.graph.nodes[n.b].createdBy !in after.events.Keys;
  }

  lemma DeletedB(n: Names)
    requires n.Different()
    ensures Deleted(TwoNodes(n), Reach({n.b}, {}), {n.three}) == OnlyA(n)
  {
    RemovedB(n);
    hide Remove;
    var after := Deleted(TwoNodes(n), Reach({n.b}, {}), {n.three});
    assert after.events == OnlyA(n).events;
    assert after.receipts == map[] && after.rulings == map[] && after.firsts == map[] && after.dispositions == {};
    assert after.semantic == NoSemantic;
  }

  lemma RemovedB(n: Names)
    requires n.Different()
    ensures Remove(TwoNodes(n).graph, Reach({n.b}, {})) == OnlyA(n).graph
  {
    var g := Remove(TwoNodes(n).graph, Reach({n.b}, {}));
    assert g.nodes == OnlyA(n).graph.nodes;
    assert g.nodeVersions == OnlyA(n).graph.nodeVersions;
    assert g.edges == map[] && g.edgeVersions == map[] && g.items == map[];
  }

  lemma NothingLeft(n: Names)
    requires n.Different()
    ensures var after := Deleted(OnlyA(n), Reach({n.a}, {}), {n.two}); References(after) && n.a !in after.graph.nodes
  {
    var after := Deleted(OnlyA(n), Reach({n.a}, {}), {n.two});
    assert after.graph.nodes == map[] && after.graph.nodeVersions == map[];
    assert after.semantic == NoSemantic;
  }

  /** With a rollback the order matters: a cannot go while b is there, and goes after it. */
  lemma RolledBackPurgesDoNotCommute(n: Names)
    requires n.Different()
    ensures References(TwoNodes(n)) && Intact(TwoNodes(n).graph) && HardPurge(TwoNodes(n), n.a).Rejected?
    ensures n.a in AfterPurge(AfterPurge(TwoNodes(n), n.a), n.b).graph.nodes
    ensures n.a !in AfterPurge(AfterPurge(TwoNodes(n), n.b), n.a).graph.nodes
  {
    hide HardPurge, References, Deleted, NamesNodeOnly, VersionsOf;
    NamesInOrder(n);
    ReferencesOfTwo(n);
    LonePurge(TwoNodes(n), n.a, n.va);
    DanglingB(n);
    LonePurge(TwoNodes(n), n.b, n.vb);
    DeletedB(n);
    LonePurge(OnlyA(n), n.a, n.va);
    NothingLeft(n);
  }

  function Rank(c: Class): nat {
    match c case SourceScope => 0 case NodeScope => 1 case OperatorScope => 2 case SessionScope => 3
  }

  /** Success removes everything the scope named: the same text can only resolve again to a later class. */
  lemma PurgedScopeIsGone(s: Store, scope: Id)
    requires HardPurge(s, scope).Ok?
    ensures var after := HardPurge(s, scope).value;
      Resolve(after, scope).Ok? ==> Rank(Resolve(after, scope).value.class_) > Rank(Resolve(s, scope).value.class_)
  {
    var found := Resolve(s, scope).value;
    var r := Hull(s.graph, found.reach);
    HullIsLeast(s.graph, found.reach);
    hide Hull, NodesOfEvents, References;
    assert found.events <= EventsOf(s, found.events, r);
    ScopeRemoved(s, scope, found, r, EventsOf(s, found.events, r));
  }

  lemma ScopeRemoved(s: Store, scope: Id, found: Scope, r: Reach, events: set<Id>)
    requires Resolve(s, scope) == Ok(found) && found.reach.Within(r) && found.events <= events
    ensures var again := Resolve(Deleted(s, r, events), scope);
      again.Ok? ==> Rank(again.value.class_) > Rank(found.class_)
  {
    hide NodesOfEvents, SemanticOutside;
    var after := Deleted(s, r, events);
    assert forall i | i in after.graph.items :: i !in found.reach.items && after.graph.items[i] == s.graph.items[i];
    assert forall e | e in after.events :: e !in found.events && after.events[e] == s.events[e];
    assert forall x | x in after.receipts :: after.receipts[x] !in found.events && after.receipts[x] == s.receipts[x];
    match found.class_
    case SourceScope =>
      assert scope !in after.receipts;
      assert forall i | i in after.graph.items :: after.graph.items[i].source != scope;
    case NodeScope =>
      assert scope !in after.graph.nodes && scope !in after.receipts;
      assert forall i | i in after.graph.items :: after.graph.items[i].source != scope;
    case OperatorScope => EarlierScopesStayGone(s, scope, found, after);
    case SessionScope => EarlierScopesStayGone(s, scope, found, after);
  }

  lemma EarlierScopesStayGone(s: Store, scope: Id, found: Scope, after: Store)
    requires Resolve(s, scope) == Ok(found) && found.class_ in {OperatorScope, SessionScope}
    requires forall i | i in after.graph.items :: i in s.graph.items && i !in found.reach.items && after.graph.items[i] == s.graph.items[i]
    requires forall e | e in after.events :: e in s.events && e !in found.events && after.events[e] == s.events[e]
    requires after.receipts.Keys <= s.receipts.Keys && after.graph.nodes.Keys <= s.graph.nodes.Keys
    ensures Resolve(after, scope).Ok? ==> Rank(Resolve(after, scope).value.class_) > Rank(found.class_)
  {
    hide NodesOfEvents;
    assert ItemsOfSource(after.graph, scope) <= ItemsOfSource(s.graph, scope);
    assert ItemsOfOperator(after.graph, scope) <= ItemsOfOperator(s.graph, scope);
    assert EventsOfOperator(after, scope) <= EventsOfOperator(s, scope);
  }

  /** The tables, purged in place. */
  class PurgeTables {
    var nodes: map<Id, Node>
    var nodeVersions: map<Id, NodeVersion>
    var edges: map<Id, Edge>
    var edgeVersions: map<Id, EdgeVersion>
    var items: map<Id, Item>
    var events: map<Id, Event>
    var receipts: map<Id, Id>
    var rulings: map<Id, Ruling>
    var firsts: map<Id, Id>
    var dispositions: set<(Id, Id)>
    var semantic: Semantic

    function Value(): Store
      reads this
    {
      Store(Graph(nodes, nodeVersions, edges, edgeVersions, items), events, receipts, rulings, firsts, dispositions, semantic)
    }

    /** The semantic rows of the removed versions; the business tables keep theirs. */
    method DeleteSemanticRows(versions: set<Id>, gone: set<Id>)
      modifies this`semantic
      ensures semantic == SemanticOutside(old(semantic), versions, gone)
    {
      if versions == {} {
        return;
      }
      semantic := semantic.(relations := semantic.relations - RelationsOf(semantic, versions));
      semantic := semantic.(heads := HeadsOutside(semantic.heads, versions));
      semantic := semantic.(artifacts := semantic.artifacts - versions);
      semantic := semantic.(nodes := semantic.nodes - versions);
      semantic := semantic.(corrections := SubjectsOutside(semantic.corrections, gone));
      semantic := semantic.(contests := SubjectsOutside(semantic.contests, gone));
    }

    method DeleteEdges(gone: set<Id>)
      modifies this`edges, this`edgeVersions
      ensures edges == old(edges) - gone && edgeVersions == EdgeVersionsOutside(old(edgeVersions), gone)
    {
      edgeVersions := EdgeVersionsOutside(edgeVersions, gone);
      edges := edges - gone;
    }

    method DeleteItems(gone: set<Id>, goneItems: set<Id>)
      modifies this`receipts, this`rulings, this`items
      ensures receipts == ReceiptsOutside(old(receipts), gone) && items == old(items) - goneItems
      ensures rulings == ItemRulingsOutside(EventRulingsOutside(old(rulings), gone), goneItems)
    {
      receipts := ReceiptsOutside(receipts, gone);
      rulings := EventRulingsOutside(rulings, gone);
      rulings := ItemRulingsOutside(rulings, goneItems);
      items := items - goneItems;
    }

    method DeleteNodes(gone: set<Id>)
      modifies this`nodes, this`nodeVersions
      ensures nodes == old(nodes) - gone && nodeVersions == VersionsOutside(old(nodeVersions), gone)
    {
      nodeVersions := VersionsOutside(nodeVersions, gone);
      nodes := nodes - gone;
    }

    method DeleteEvents(gone: set<Id>)
      modifies this`firsts, this`dispositions, this`events
      ensures firsts == ReceiptsOutside(old(firsts), gone) && events == old(events) - gone
      ensures dispositions == set d | d in old(dispositions) && d.0 !in gone
    {
      firsts := ReceiptsOutside(firsts, gone);
      dispositions := set d | d in dispositions && d.0 !in gone;
      events := events - gone;
    }

    method DeleteRows(reach: Reach, gone: set<Id>)
      modifies this
      ensures Value() == Deleted(old(Value()), reach, gone)
    {
      hide EdgesTouching, EdgeVersionsOutside, VersionsOutside, ReceiptsOutside, EventRulingsOutside, ItemRulingsOutside,
        SemanticOutside, VersionsOf;
      DeleteSemanticRows(VersionsOf(Value().graph, reach.nodes), reach.nodes);
      DeleteEdges(EdgesTouching(Value().graph, reach.nodes));
      DeleteItems(gone, reach.items);
      DeleteNodes(reach.nodes);
      DeleteEvents(gone);
    }

    /** The rollback of the transaction. */
    method Restore(saved: Store)
      modifies this
      ensures Value() == saved
    {
      nodes, nodeVersions, edges := saved.graph.nodes, saved.graph.nodeVersions, saved.graph.edges;
      edgeVersions, items := saved.graph.edgeVersions, saved.graph.items;
      events, receipts, rulings, firsts := saved.events, saved.receipts, saved.rulings, saved.firsts;
      dispositions, semantic := saved.dispositions, saved.semantic;
    }

    /** One transaction: a dangling reference rolls all of it back. */
    method Purge(scope: Id) returns (ok: bool)
      modifies this
      ensures ok == HardPurge(old(Value()), scope).Ok?
      ensures Value() == if ok then HardPurge(old(Value()), scope).value else old(Value())
    {
      hide Resolve, EventsOf, References, Deleted, Hull;
      var before := Value();
      var found := Resolve(before, scope);
      if found.Rejected? {
        return false;
      }
      var reach := Closure(before.graph, found.value.reach);
      DeleteRows(reach, EventsOf(before, found.value.events, reach));
      ok := References(Value());
      if !ok {
        Restore(before);
      }
    }
  }
}
