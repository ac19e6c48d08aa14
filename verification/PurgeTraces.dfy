/** What a purge leaves of each table, told from the tables before and after it. */
module PurgeTraces {
  import opened Outcomes
  import opened PurgeClosure

  // ---------- what a scope names ----------

  ghost predicate SourceNamed(s: Store, scope: Id) { scope in s.receipts || exists i :: i in s.graph.items && s.graph.items[i].source == scope }

  ghost predicate OperatorNamed(s: Store, scope: Id) {
    (exists e :: e in s.events && s.events[e].operator == scope) || exists i :: i in s.graph.items && s.graph.items[i].operator == scope
  }

  ghost predicate SessionNamed(s: Store, scope: Id) {
    (exists e :: e in s.events && s.events[e].session == Some(scope)) || exists i :: i in s.graph.items && s.graph.items[i].session == scope
  }

  /** The event is the scope's own: its receipt's, its operator's or its session's. */
  ghost predicate ScopeEvent(s: Store, scope: Id, e: Id) {
    if SourceNamed(s, scope) then scope in s.receipts && s.receipts[scope] == e
    else if scope in s.graph.nodes then false
    else if OperatorNamed(s, scope) then e in s.events && s.events[e].operator == scope
    else e in s.events && s.events[e].session == Some(scope)
  }

  ghost predicate ScopeItem(s: Store, scope: Id, i: Id) {
    && i in s.graph.items
    && if SourceNamed(s, scope) then s.graph.items[i].source == scope
       else if scope in s.graph.nodes then false
       else if OperatorNamed(s, scope) then s.graph.items[i].operator == scope
       else s.graph.items[i].session == scope
  }

  /** Some event of the scope made the node or one of its versions. */
  ghost predicate MadeByScope(s: Store, scope: Id, n: Id) {
    || (n in s.graph.nodes && ScopeEvent(s, scope, s.graph.nodes[n].createdBy))
    || exists v :: v in s.graph.nodeVersions && s.graph.nodeVersions[v].node == n && ScopeEvent(s, scope, s.graph.nodeVersions[v].event)
  }

  ghost predicate OwnedByScope(s: Store, scope: Id, n: Id) { n in s.graph.nodes && s.graph.nodes[n].operator == scope }

  /** The nodes a scope starts from: itself, an operator's own nodes if there are any, else
      those its events made. */
  ghost predicate ScopeNode(s: Store, scope: Id, n: Id) {
    if SourceNamed(s, scope) then MadeByScope(s, scope, n)
    else if scope in s.graph.nodes then n == scope
    else if OperatorNamed(s, scope) && (exists m :: OwnedByScope(s, scope, m)) then OwnedByScope(s, scope, n)
    else MadeByScope(s, scope, n)
  }

  lemma NodesOfEventsExactly(s: Store, events: set<Id>, n: Id)
    ensures n in NodesOfEvents(s.graph, events) <==>
      || (n in s.graph.nodes && s.graph.nodes[n].createdBy in events)
      || exists v :: v in s.graph.nodeVersions && s.graph.nodeVersions[v].node == n && s.graph.nodeVersions[v].event in events
  {
  }

  /** A scope resolves if and only if it names a source, a node, an operator or a session,
      in this order, and then to exactly what it names. */
  lemma ResolvesExactly(s: Store, scope: Id)
    ensures Resolve(s, scope).Ok? <==> SourceNamed(s, scope) || scope in s.graph.nodes || OperatorNamed(s, scope) || SessionNamed(s, scope)
    ensures Resolve(s, scope).Ok? ==> var found := Resolve(s, scope).value;
      && (forall e :: e in found.events <==> ScopeEvent(s, scope, e))
      && (forall i :: i in found.reach.items <==> ScopeItem(s, scope, i))
  {
    NamedSets(s, scope);
    hide NodesOfEvents, ItemsOfSource, ItemsOfOperator, ItemsOfSession, EventsOfOperator, EventsOfSession, NodesOfOperator;
    hide SourceNamed, OperatorNamed, SessionNamed;
  }

  lemma SourceSets(s: Store, scope: Id)
    ensures SourceNamed(s, scope) <==> scope in s.receipts || ItemsOfSource(s.graph, scope) != {}
    ensures forall i :: i in ItemsOfSource(s.graph, scope) <==> i in s.graph.items && s.graph.items[i].source == scope
  {
    if i :| i in s.graph.items && s.graph.items[i].source == scope {
      assert i in ItemsOfSource(s.graph, scope);
    }
    if ItemsOfSource(s.graph, scope) != {} {
      var i :| i in ItemsOfSource(s.graph, scope);
      assert i in s.graph.items && s.graph.items[i].source == scope;
    }
  }

  lemma OperatorSets(s: Store, scope: Id)
    ensures OperatorNamed(s, scope) <==> EventsOfOperator(s, scope) != {} || ItemsOfOperator(s.graph, scope) != {}
    ensures forall e :: e in EventsOfOperator(s, scope) <==> e in s.events && s.events[e].operator == scope
    ensures forall i :: i in ItemsOfOperator(s.graph, scope) <==> i in s.graph.items && s.graph.items[i].operator == scope
  {
    if e :| e in s.events && s.events[e].operator == scope {
      assert e in EventsOfOperator(s, scope);
    }
    if EventsOfOperator(s, scope) != {} {
      var e :| e in EventsOfOperator(s, scope);
      assert e in s.events && s.events[e].operator == scope;
    }
    if i :| i in s.graph.items && s.graph.items[i].operator == scope {
      assert i in ItemsOfOperator(s.graph, scope);
    }
    if ItemsOfOperator(s.graph, scope) != {} {
      var i :| i in ItemsOfOperator(s.graph, scope);
      assert i in s.graph.items && s.graph.items[i].operator == scope;
    }
  }

  lemma SessionSets(s: Store, scope: Id)
    ensures SessionNamed(s, scope) <==> EventsOfSession(s, scope) != {} || ItemsOfSession(s.graph, scope) != {}
    ensures forall e :: e in EventsOfSession(s, scope) <==> e in s.events && s.events[e].session == Some(scope)
    ensures forall i :: i in ItemsOfSession(s.graph, scope) <==> i in s.graph.items && s.graph.items[i].session == scope
  {
    if e :| e in s.events && s.events[e].session == Some(scope) {
      assert e in EventsOfSession(s, scope);
    }
    if EventsOfSession(s, scope) != {} {
      var e :| e in EventsOfSession(s, scope);
      assert e in s.events && s.events[e].session == Some(scope);
    }
    if i :| i in s.graph.items && s.graph.items[i].session == scope {
      assert i in ItemsOfSession(s.graph, scope);
    }
    if ItemsOfSession(s.graph, scope) != {} {
      var i :| i in ItemsOfSession(s.graph, scope);
      assert i in s.graph.items && s.graph.items[i].session == scope;
    }
  }

  lemma OwnedSets(s: Store, scope: Id)
    ensures (exists m :: OwnedByScope(s, scope, m)) <==> NodesOfOperator(s.graph, scope) != {}
    ensures forall m :: m in NodesOfOperator(s.graph, scope) <==> OwnedByScope(s, scope, m)
  {
    if m :| OwnedByScope(s, scope, m) {
      assert m in NodesOfOperator(s.graph, scope);
    }
    if NodesOfOperator(s.graph, scope) != {} {
      var m :| m in NodesOfOperator(s.graph, scope);
      assert OwnedByScope(s, scope, m);
    }
  }

  lemma NamedSets(s: Store, scope: Id)
    ensures SourceNamed(s, scope) <==> scope in s.receipts || ItemsOfSource(s.graph, scope) != {}
    ensures OperatorNamed(s, scope) <==> EventsOfOperator(s, scope) != {} || ItemsOfOperator(s.graph, scope) != {}
    ensures SessionNamed(s, scope) <==> EventsOfSession(s, scope) != {} || ItemsOfSession(s.graph, scope) != {}
    ensures forall i :: i in ItemsOfSource(s.graph, scope) <==> i in s.graph.items && s.graph.items[i].source == scope
    ensures forall i :: i in ItemsOfOperator(s.graph, scope) <==> i in s.graph.items && s.graph.items[i].operator == scope
    ensures forall i :: i in ItemsOfSession(s.graph, scope) <==> i in s.graph.items && s.graph.items[i].session == scope
    ensures forall e :: e in EventsOfOperator(s, scope) <==> e in s.events && s.events[e].operator == scope
    ensures forall e :: e in EventsOfSession(s, scope) <==> e in s.events && s.events[e].session == Some(scope)
    ensures (exists m :: OwnedByScope(s, scope, m)) <==> NodesOfOperator(s.graph, scope) != {}
    ensures forall m :: m in NodesOfOperator(s.graph, scope) <==> OwnedByScope(s, scope, m)
  {
    SourceSets(s, scope);
    OperatorSets(s, scope);
    SessionSets(s, scope);
    OwnedSets(s, scope);
    hide ItemsOfSource, ItemsOfOperator, ItemsOfSession, EventsOfOperator, EventsOfSession, NodesOfOperator, SourceNamed, OperatorNamed, SessionNamed;
  }

  /** And from the nodes it starts from. */
  lemma SeedNodes(s: Store, scope: Id, n: Id)
    requires Resolve(s, scope).Ok?
    ensures n in Resolve(s, scope).value.reach.nodes <==> ScopeNode(s, scope, n)
  {
    ResolvesExactly(s, scope);
    NamedSets(s, scope);
    NodesOfEventsExactly(s, Resolve(s, scope).value.events, n);
    hide NodesOfEvents, ItemsOfSource, ItemsOfOperator, ItemsOfSession, EventsOfOperator, EventsOfSession, NodesOfOperator;
    hide SourceNamed, OperatorNamed, SessionNamed, ScopeEvent, OwnedByScope;
  }

  // ---------- which rows go ----------

  /** The closure stays within its seeds and what the tables mention. */
  lemma {:induction false} HullBounds(g: Graph, seeds: Reach)
    ensures Hull(g, seeds).nodes <= seeds.nodes + KeptBy(g, g.items.Keys) + EndpointsOf(g)
    ensures Hull(g, seeds).items <= seeds.items + g.items.Keys
    decreases Unreached(g, seeds)
  {
    GrowBounds(g, seeds);
    if Grow(g, seeds) != seeds {
      GrowProgresses(g, seeds);
      hide KeptBy, EndpointsOf, Grow;
      HullBounds(g, Grow(g, seeds));
    }
  }

  /** A node was removed, or an item that named it as kept was. */
  ghost predicate NodeGone(s: Store, after: Store, n: Id) {
    && n !in after.graph.nodes
    && (n in s.graph.nodes || exists i :: i in s.graph.items && i !in after.graph.items && s.graph.items[i].kept == Some(n))
  }

  ghost predicate ByNodeVersion(s: Store, after: Store, e: Id) {
    exists v :: v in s.graph.nodeVersions && v !in after.graph.nodeVersions && s.graph.nodeVersions[v].event == e
  }

  ghost predicate ByEdgeVersion(s: Store, after: Store, e: Id) {
    exists v :: v in s.graph.edgeVersions && v !in after.graph.edgeVersions && s.graph.edgeVersions[v].event == e
  }

  /** A ruling names the event on an item that was removed. */
  ghost predicate ByRuling(s: Store, after: Store, e: Id) {
    exists u :: u in s.rulings && s.rulings[u].event == e && s.rulings[u].item in s.graph.items && s.rulings[u].item !in after.graph.items
  }

  /** The event disposed of a node that was removed. */
  ghost predicate ByDisposition(s: Store, after: Store, e: Id) { exists n :: (e, n) in s.dispositions && NodeGone(s, after, n) }

  /** The nodes and items of the closure, from the tables before and after. */
  lemma ReachGone(s: Store, scope: Id, r: Reach)
    requires Intact(s.graph) && Resolve(s, scope).Ok? && r == Hull(s.graph, Resolve(s, scope).value.reach)
    ensures var after := Deleted(s, r, EventsOf(s, Resolve(s, scope).value.events, r));
      && (forall n :: n in r.nodes <==> NodeGone(s, after, n))
      && (forall i :: i in r.items <==> i in s.graph.items && i !in after.graph.items)
  {
    var found := Resolve(s, scope).value;
    var after := Deleted(s, r, EventsOf(s, found.events, r));
    HullBounds(s.graph, found.reach);
    HullIsLeast(s.graph, found.reach);
    SeedsAreRows(s, scope);
    hide Resolve, EventsOf, Hull, SemanticOutside;
    assert forall i :: i in after.graph.items <==> i in s.graph.items && i !in r.items;
    forall n | n in r.nodes
      ensures NodeGone(s, after, n)
    {
      if n !in s.graph.nodes {
        assert n in KeptBy(s.graph, s.graph.items.Keys);
        var i :| i in s.graph.items && s.graph.items[i].kept == Some(n);
        assert ItemLinked(s.graph.items[i], r.nodes);
      }
    }
  }

  lemma SeedsAreRows(s: Store, scope: Id)
    requires Intact(s.graph) && Resolve(s, scope).Ok?
    ensures Resolve(s, scope).value.reach.nodes <= s.graph.nodes.Keys && Resolve(s, scope).value.reach.items <= s.graph.items.Keys
  {
    var found := Resolve(s, scope).value;
    ResolvesExactly(s, scope);
    forall n | n in found.reach.nodes
      ensures n in s.graph.nodes
    {
      SeedNodes(s, scope, n);
    }
  }

  /** After a successful purge an event is gone if and only if it was the scope's own, or a
      removed node version, a removed edge version, a ruling of a removed item or a
      disposition of a removed node referred to it; every other event is as it was. */
  lemma EventsGoExactly(s: Store, scope: Id, e: Id)
    requires Intact(s.graph) && HardPurge(s, scope).Ok?
    ensures var after := HardPurge(s, scope).value;
      && (e in s.events && e !in after.events <==>
            e in s.events && (ScopeEvent(s, scope, e) || ByNodeVersion(s, after, e) || ByEdgeVersion(s, after, e)
                              || ByRuling(s, after, e) || ByDisposition(s, after, e)))
      && (e in after.events ==> e in s.events)
      && (e in after.events ==> after.events[e] == s.events[e])
  {
    var found := Resolve(s, scope).value;
    var r := Hull(s.graph, found.reach);
    ResolvesExactly(s, scope);
    ReachGone(s, scope, r);
    hide Resolve, Hull, References, ScopeEvent, NodeGone;
    var after := HardPurge(s, scope).value;
    assert after == Deleted(s, r, EventsOf(s, found.events, r));
    hide HardPurge;
    EventsOfExactly(s, after, found.events, r, e);
  }

  lemma EventsOfExactly(s: Store, after: Store, seeds: set<Id>, r: Reach, e: Id)
    requires after == Deleted(s, r, EventsOf(s, seeds, r))
    requires (forall n :: n in r.nodes <==> NodeGone(s, after, n)) && (forall i :: i in r.items <==> i in s.graph.items && i !in after.graph.items)
    ensures e in EventsOf(s, seeds, r) <==>
      e in seeds || ByNodeVersion(s, after, e) || ByEdgeVersion(s, after, e) || ByRuling(s, after, e) || ByDisposition(s, after, e)
    ensures e in after.events <==> e in s.events && e !in EventsOf(s, seeds, r)
    ensures e in after.events ==> after.events[e] == s.events[e]
  {
    hide NodeGone, SemanticOutside, ReceiptsOutside, ItemRulingsOutside, EventRulingsOutside;
    assert forall v :: v in after.graph.nodeVersions <==> v in s.graph.nodeVersions && s.graph.nodeVersions[v].node !in r.nodes;
    assert forall v :: v in after.graph.edgeVersions <==> v in s.graph.edgeVersions && s.graph.edgeVersions[v].edge !in EdgesTouching(s.graph, r.nodes);
    hide Deleted;
    var edges := EdgesTouching(s.graph, r.nodes);
    assert (exists v :: v in s.graph.nodeVersions && s.graph.nodeVersions[v].node in r.nodes && s.graph.nodeVersions[v].event == e) <==> ByNodeVersion(s, after, e);
    assert (exists v :: v in s.graph.edgeVersions && s.graph.edgeVersions[v].edge in edges && s.graph.edgeVersions[v].event == e) <==> ByEdgeVersion(s, after, e);
    assert (exists d :: d in s.dispositions && d.1 in r.nodes && d.0 == e) <==> ByDisposition(s, after, e) by {
      if d :| d in s.dispositions && d.1 in r.nodes && d.0 == e {
        assert (e, d.1) in s.dispositions;
      }
    }
  }

  /** And the rows that refer to an event stay, as they were, exactly when their event does. */
  lemma RowsFollowEvents(s: Store, scope: Id, x: Id)
    requires References(s) && HardPurge(s, scope).Ok?
    ensures var after := HardPurge(s, scope).value;
      && (x in after.receipts <==> x in s.receipts && s.receipts[x] in after.events)
      && (x in after.firsts <==> x in s.firsts && s.firsts[x] in after.events)
      && (x in after.rulings <==> x in s.rulings && s.rulings[x].event in after.events)
      && (forall n | x in s.events :: (x, n) in after.dispositions <==> (x, n) in s.dispositions && x in after.events)
      && (x in after.receipts ==> after.receipts[x] == s.receipts[x])
      && (x in after.firsts ==> after.firsts[x] == s.firsts[x])
      && (x in after.rulings ==> after.rulings[x] == s.rulings[x])
  {
    var found := Resolve(s, scope).value;
    var r := Hull(s.graph, found.reach);
    var events := EventsOf(s, found.events, r);
    hide Resolve, Hull, SemanticOutside, SemanticResolves, Remove;
    assert x in s.rulings && s.rulings[x].item in r.items ==> s.rulings[x].event in events;
  }

  /** The semantic rows of a removed version go, a relation with either end and a confidence
      head with either part on one; corrections and contests of removed nodes go unless no
      node version does; the business rows stay. */
  lemma SemanticGoesExactly(s: Store, scope: Id, x: Id)
    requires Intact(s.graph) && HardPurge(s, scope).Ok?
    ensures var after := HardPurge(s, scope).value; var m, k := s.semantic, after.semantic;
      && (x in k.nodes <==> x in m.nodes && !VersionGone(s, after, x))
      && (x in k.artifacts <==> x in m.artifacts && !VersionGone(s, after, x))
      && (x in k.relations <==> x in m.relations && !VersionGone(s, after, m.relations[x].source) && !VersionGone(s, after, m.relations[x].target))
      && (x in k.heads <==> x in m.heads && !VersionGone(s, after, x) && !VersionGone(s, after, m.heads[x]))
      && (x in k.corrections <==> x in m.corrections && !(NodeGone(s, after, m.corrections[x].record) && exists v :: VersionGone(s, after, v)))
      && (x in k.contests <==> x in m.contests && !(NodeGone(s, after, m.contests[x].record) && exists v :: VersionGone(s, after, v)))
      && k.businessNodes == m.businessNodes && k.businessRelations == m.businessRelations
  {
    var found := Resolve(s, scope).value;
    var r := Hull(s.graph, found.reach);
    ReachGone(s, scope, r);
    hide Resolve, Hull, References, NodeGone;
    var after := HardPurge(s, scope).value;
    assert after == Deleted(s, r, EventsOf(s, found.events, r));
    hide HardPurge, EventsOf;
    var versions := VersionsOf(s.graph, r.nodes);
    assert forall v :: v in versions <==> VersionGone(s, after, v);
    assert versions == {} <==> !exists v :: v in versions;
  }

  ghost predicate VersionGone(s: Store, after: Store, v: Id) { v in s.graph.nodeVersions && v !in after.graph.nodeVersions }
}
