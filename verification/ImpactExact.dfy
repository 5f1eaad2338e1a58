/** When the impact analysis finds every mapping that depends on a change. The planner reads a node as a member of
    a group by the group's list or by the node's primary-group column (service/proxy/service.go:952); the
    analysis reads the lists alone (service/proxy/runtime_reconcile.go:72). */
module ImpactExact {
  import opened Ids
  import opened GroupGraph
  import opened ConfigModel
  import opened ConfigWrites
  import opened ConfigEffects
  import opened Impact

  // ---------------------------------------------------------------- what a mapping depends on

  /** a makes use of b: it lists b, or is a group that b names as its primary one. */
  predicate Holds(db: Db, a: Item, b: Item) {
    Lists(db, a, b) || (a.G? && b.N? && Belongs(db, a.id, b.id))
  }

  ghost predicate Trail(db: Db, w: seq<Item>, from: Item, to: Item) {
    && |w| > 0 && w[0] == from && w[|w| - 1] == to
    && forall i :: 0 <= i < |w| - 1 ==> Holds(db, w[i], w[i + 1])
  }

  /** What is planned for from makes use of to, however far below. */
  ghost predicate Depends(db: Db, from: Item, to: Item) {
    exists w :: Trail(db, w, from, to)
  }

  lemma TrailTail(db: Db, w: seq<Item>, from: Item, to: Item)
    requires Trail(db, w, from, to) && |w| > 1
    ensures Trail(db, w[1..], w[1], to) && Holds(db, from, w[1])
  {
    assert Holds(db, w[0], w[1]);
    forall i | 0 <= i < |w| - 2
      ensures Holds(db, w[1..][i], w[1..][i + 1])
    {
      assert Holds(db, w[i + 1], w[i + 2]);
    }
  }

  lemma DependsStep(db: Db, a: Item, b: Item, to: Item)
    requires Holds(db, a, b) && Depends(db, b, to)
    ensures Depends(db, a, to)
  {
    var w :| Trail(db, w, b, to);
    var v := [a] + w;
    forall i | 0 <= i < |v| - 1
      ensures Holds(db, v[i], v[i + 1])
    {
      if i > 0 {
        assert Holds(db, w[i - 1], w[i]);
      }
    }
    assert Trail(db, v, a, to);
  }

  lemma {:induction false} WalkDepends(db: Db, w: seq<Item>, from: Item, to: Item)
    requires Walk(db, w, from, to)
    ensures Depends(db, from, to)
  {
    forall i | 0 <= i < |w| - 1
      ensures Holds(db, w[i], w[i + 1])
    {
      assert Lists(db, w[i], w[i + 1]);
    }
    assert Trail(db, w, from, to);
  }

  lemma LinkDepends(db: Db, a: Item, b: Item)
    requires Holds(db, a, b)
    ensures Depends(db, a, b)
  {
    assert Trail(db, [a, b], a, b);
  }

  // ---------------------------------------------------------------- changed nodes

  ghost predicate FoundNode(db: Db, from: Item, x: Id) {
    Followed(db, from, {N(x)})
  }

  /** No link loses what is found behind it. */
  ghost predicate LinksKeepNodes(db: Db) {
    forall a, b, x :: Holds(db, a, b) && FoundNode(db, b, x) ==> FoundNode(db, a, x)
  }

  lemma {:induction false} TrailFinds(db: Db, w: seq<Item>, from: Item, x: Id)
    requires LinksKeepNodes(db) && Trail(db, w, from, N(x))
    ensures FoundNode(db, from, x)
    decreases |w|
  {
    if |w| > 1 {
      TrailTail(db, w, from, N(x));
      TrailFinds(db, w[1..], w[1], x);
    } else {
      FollowedSelf(db, N(x), {N(x)});
    }
  }

  lemma FoundNodeDepends(db: Db, from: Item, x: Id)
    requires FoundNode(db, from, x)
    ensures Depends(db, from, N(x))
  {
    var w: seq<Item>, s: Item :| s in {N(x)} && Walk(db, w, from, s) && NodesOnlyBelow(w);
    WalkDepends(db, w, from, s);
  }

  predicate RowLists(row: MappingRow, item: Item) {
    if item.N? then item.id in row.nodeIds else item.id in row.groupIds
  }

  /** The analysis of a change of node x returns a mapping with this row. */
  ghost predicate RowFindsNode(db: Db, row: MappingRow, x: Id) {
    exists item :: RowLists(row, item) && FoundNode(db, item, x)
  }

  ghost predicate RowUsesNode(db: Db, row: MappingRow, x: Id) {
    exists item :: RowLists(row, item) && Depends(db, item, N(x))
  }

  function RowOfItem(item: Item): MappingRow {
    if item.N? then MappingRow(false, [item.id], [], "", "") else MappingRow(false, [], [item.id], "", "")
  }

  /** For every mapping the tables could hold and every changed node, the analysis is exact if and only if no link
      loses what is found behind it. */
  lemma NodeImpactIsExactIff(db: Db)
    ensures (forall row, x :: RowFindsNode(db, row, x) <==> RowUsesNode(db, row, x)) <==> LinksKeepNodes(db)
  {
    if LinksKeepNodes(db) {
      forall row, x
        ensures RowFindsNode(db, row, x) <==> RowUsesNode(db, row, x)
      {
        if RowFindsNode(db, row, x) {
          var item :| RowLists(row, item) && FoundNode(db, item, x);
          FoundNodeDepends(db, item, x);
        }
        if RowUsesNode(db, row, x) {
          var item :| RowLists(row, item) && Depends(db, item, N(x));
          var w :| Trail(db, w, item, N(x));
          TrailFinds(db, w, item, x);
        }
      }
    } else {
      var a, b, x :| Holds(db, a, b) && FoundNode(db, b, x) && !FoundNode(db, a, x);
      FoundNodeDepends(db, b, x);
      DependsStep(db, a, b, N(x));
      assert RowLists(RowOfItem(a), a);
      assert RowUsesNode(db, RowOfItem(a), x) && !RowFindsNode(db, RowOfItem(a), x);
    }
  }

  /** Every node that names a group as its primary one is found behind that group by lists alone: on its list, on
      the list of a group below it, or through a chain listed there. */
  ghost predicate ColumnsFound(db: Db) {
    forall g, n :: Belongs(db, g, n) ==> FoundNode(db, G(g), n)
  }

  lemma ListedColumnsAreFound(db: Db)
    requires forall g, n :: Belongs(db, g, n) ==> n in db.groups[g].nodeIds
    ensures ColumnsFound(db)
  {
    forall g, n | Belongs(db, g, n)
      ensures FoundNode(db, G(g), n)
    {
      FollowedSelf(db, N(n), {N(n)});
      FollowedStep(db, G(g), N(n), {N(n)});
    }
  }

  lemma WalksCompose(db: Db, w: seq<Item>, v: seq<Item>, a: Item, b: Item, c: Item)
    requires Walk(db, w, a, b) && Walk(db, v, b, c)
    ensures Walk(db, w + v[1..], a, c)
  {
    var u := w + v[1..];
    forall i | 0 <= i < |u| - 1
      ensures Lists(db, u[i], u[i + 1])
    {
      if i < |w| - 1 {
        assert Lists(db, w[i], w[i + 1]);
      } else {
        assert Lists(db, v[i - |w| + 1], v[i - |w| + 2]);
      }
    }
  }

  /** Where no chain lists a chain, what is followed can be followed on. */
  lemma FollowedThrough(db: Db, a: Item, b: Item, seeds: set<Item>)
    requires NoChainInChain(db) && Followed(db, a, {b}) && Followed(db, b, seeds)
    ensures Followed(db, a, seeds)
  {
    var w: seq<Item>, t: Item :| t in {b} && Walk(db, w, a, t) && NodesOnlyBelow(w);
    var v: seq<Item>, s: Item :| s in seeds && Walk(db, v, b, s) && NodesOnlyBelow(v);
    WalksCompose(db, w, v, a, b, s);
    FlatWalksAreFollowed(db, w + v[1..], a, s);
  }

  lemma ListedIsFollowed(db: Db, a: Item, b: Item)
    requires NoChainInChain(db) && Lists(db, a, b)
    ensures Followed(db, a, {b})
  {
    assert Walk(db, [a, b], a, b);
    FlatWalksAreFollowed(db, [a, b], a, b);
  }

  /** Where no chain lists a chain, links lose nothing if and only if the columns are found. */
  lemma FlatLinksKeepNodesIff(db: Db)
    requires NoChainInChain(db)
    ensures LinksKeepNodes(db) <==> ColumnsFound(db)
  {
    if LinksKeepNodes(db) {
      forall g, n | Belongs(db, g, n)
        ensures FoundNode(db, G(g), n)
      {
        FollowedSelf(db, N(n), {N(n)});
        assert Holds(db, G(g), N(n)) && FoundNode(db, N(n), n);
      }
    }
    if ColumnsFound(db) {
      forall a, b, x | Holds(db, a, b) && FoundNode(db, b, x)
        ensures FoundNode(db, a, x)
      {
        if Lists(db, a, b) {
          ListedIsFollowed(db, a, b);
        }
        FollowedThrough(db, a, b, {N(x)});
      }
    }
  }

  lemma FollowedToSome(db: Db, item: Item, seeds: set<Item>)
    ensures Followed(db, item, seeds) <==> exists s :: s in seeds && Followed(db, item, {s})
  {
    if Followed(db, item, seeds) {
      var w: seq<Item>, s: Item :| s in seeds && Walk(db, w, item, s) && NodesOnlyBelow(w);
      assert s in {s};
      assert Followed(db, item, {s});
    }
    if s :| s in seeds && Followed(db, item, {s}) {
      var w: seq<Item>, t: Item :| t in {s} && Walk(db, w, item, t) && NodesOnlyBelow(w);
      assert t in seeds;
    }
  }

  /** When no chain lists a chain and every primary-group column is found, the analysis of changed nodes returns
      exactly the mappings that depend on one of them. */
  lemma ImpactOfNodesIsExact(db: Db, m: Id, nodeIds: seq<Id>)
    requires NoChainInChain(db) && ColumnsFound(db)
    ensures (exists item :: MappingLists(db, m, item) && Followed(db, item, NodeItems(SetOf(Unique(nodeIds)))))
            <==> m in db.mappings && exists x :: x in Unique(nodeIds) && RowUsesNode(db, db.mappings[m], x)
  {
    var seeds := SetOf(Unique(nodeIds));
    FlatLinksKeepNodesIff(db);
    NodeImpactIsExactIff(db);
    if item :| MappingLists(db, m, item) && Followed(db, item, NodeItems(seeds)) {
      FollowedToSome(db, item, NodeItems(seeds));
      var s :| s in NodeItems(seeds) && Followed(db, item, {s});
      assert RowLists(db.mappings[m], item) && FoundNode(db, item, s.id);
      assert RowFindsNode(db, db.mappings[m], s.id);
    }
    if x :| m in db.mappings && x in Unique(nodeIds) && RowUsesNode(db, db.mappings[m], x) {
      assert RowFindsNode(db, db.mappings[m], x);
      var item :| RowLists(db.mappings[m], item) && FoundNode(db, item, x);
      assert N(x) in NodeItems(seeds);
      FollowedToSome(db, item, NodeItems(seeds));
      assert MappingLists(db, m, item);
    }
  }

  // ---------------------------------------------------------------- changed groups

  ghost predicate FoundGroup(db: Db, from: Item, x: Id) {
    FollowedToGroups(db, from, {x})
  }

  ghost predicate LinksKeepGroups(db: Db) {
    forall a, b, x :: Holds(db, a, b) && FoundGroup(db, b, x) ==> FoundGroup(db, a, x)
  }

  lemma {:induction false} TrailFindsGroup(db: Db, w: seq<Item>, from: Item, x: Id)
    requires LinksKeepGroups(db) && Trail(db, w, from, G(x))
    ensures FoundGroup(db, from, x)
    decreases |w|
  {
    if |w| > 1 {
      TrailTail(db, w, from, G(x));
      TrailFindsGroup(db, w[1..], w[1], x);
    }
  }

  lemma {:induction false} PathDepends(db: Db, p: seq<Id>, x: Id)
    requires IsPath(GraphOf(db.groups), p) && p[|p| - 1] in db.groups && x in db.groups[p[|p| - 1]].groupIds
    ensures Depends(db, G(p[0]), G(x))
    decreases |p|
  {
    if |p| == 1 {
      LinkDepends(db, G(p[0]), G(x));
    } else {
      assert Edge(GraphOf(db.groups), p[0], p[1]);
      var q := p[1..];
      forall i | 0 <= i < |q| - 1
        ensures Edge(GraphOf(db.groups), q[i], q[i + 1])
      {
        assert Edge(GraphOf(db.groups), p[i + 1], p[i + 2]);
      }
      PathDepends(db, q, x);
      DependsStep(db, G(p[0]), G(p[1]), G(x));
    }
  }

  lemma LeadsToDepends(db: Db, g: Id, x: Id)
    requires LeadsTo(GraphOf(db.groups), g, {x})
    ensures Depends(db, G(g), G(x))
  {
    if g == x {
      assert Trail(db, [G(g)], G(g), G(x));
    } else {
      var gr := GraphOf(db.groups);
      var a, y :| Reaches(gr, g, a) && a in gr && y in {x} && y in gr[a];
      var p :| PathFromTo(gr, p, g, a);
      PathDepends(db, p, x);
    }
  }

  lemma {:induction false} DependsThrough(db: Db, w: seq<Item>, a: Item, b: Item, to: Item)
    requires Trail(db, w, a, b) && Depends(db, b, to)
    ensures Depends(db, a, to)
    decreases |w|
  {
    if |w| > 1 {
      TrailTail(db, w, a, b);
      DependsThrough(db, w[1..], w[1], b, to);
      DependsStep(db, a, w[1], to);
    }
  }

  lemma FoundGroupDepends(db: Db, from: Item, x: Id)
    requires FoundGroup(db, from, x)
    ensures Depends(db, from, G(x))
  {
    var gr := GraphOf(db.groups);
    if from.G? && LeadsTo(gr, from.id, {x}) {
      LeadsToDepends(db, from.id, x);
    } else {
      var chains :| AllUse(db, chains, {x}) && Followed(db, from, NodeItems(chains));
      var w: seq<Item>, c: Item :| c in NodeItems(chains) && Walk(db, w, from, c) && NodesOnlyBelow(w);
      assert UsesGroups(db, c.id, {x});
      var g :| GroupMember(g) in db.nodes[c.id].members && LeadsTo(gr, g, {x});
      LeadsToDepends(db, g, x);
      DependsStep(db, c, G(g), G(x));
      WalkDepends(db, w, from, c);
      var t :| Trail(db, t, from, c);
      DependsThrough(db, t, from, c, G(x));
    }
  }

  ghost predicate RowFindsGroup(db: Db, row: MappingRow, x: Id) {
    exists item :: RowLists(row, item) && FoundGroup(db, item, x)
  }

  ghost predicate RowUsesGroup(db: Db, row: MappingRow, x: Id) {
    exists item :: RowLists(row, item) && Depends(db, item, G(x))
  }

  /** The same for every changed group. */
  lemma GroupImpactIsExactIff(db: Db)
    ensures (forall row, x :: RowFindsGroup(db, row, x) <==> RowUsesGroup(db, row, x)) <==> LinksKeepGroups(db)
  {
    if LinksKeepGroups(db) {
      forall row, x
        ensures RowFindsGroup(db, row, x) <==> RowUsesGroup(db, row, x)
      {
        if RowFindsGroup(db, row, x) {
          var item :| RowLists(row, item) && FoundGroup(db, item, x);
          FoundGroupDepends(db, item, x);
        }
        if RowUsesGroup(db, row, x) {
          var item :| RowLists(row, item) && Depends(db, item, G(x));
          var w :| Trail(db, w, item, G(x));
          TrailFindsGroup(db, w, item, x);
        }
      }
    } else {
      var a, b, x :| Holds(db, a, b) && FoundGroup(db, b, x) && !FoundGroup(db, a, x);
      FoundGroupDepends(db, b, x);
      DependsStep(db, a, b, G(x));
      assert RowLists(RowOfItem(a), a);
      assert RowUsesGroup(db, RowOfItem(a), x) && !RowFindsGroup(db, RowOfItem(a), x);
    }
  }

  /** A node found below something that follows to it brings the groups it was found for. */
  lemma FoundThrough(db: Db, a: Item, n: Id, x: Id)
    requires NoChainInChain(db) && Followed(db, a, {N(n)}) && FoundGroup(db, N(n), x)
    ensures FoundGroup(db, a, x)
  {
    var chains :| AllUse(db, chains, {x}) && Followed(db, N(n), NodeItems(chains));
    FollowedThrough(db, a, N(n), NodeItems(chains));
  }

  lemma ListedGroupIsFound(db: Db, a: Item, g: Id, x: Id)
    requires NoChainInChain(db) && Lists(db, a, G(g)) && FoundGroup(db, G(g), x)
    ensures FoundGroup(db, a, x)
  {
    if LeadsTo(GraphOf(db.groups), g, {x}) {
      if a.G? {
        LeadsToStep(GraphOf(db.groups), a.id, g, {x});
      } else {
        assert UsesGroups(db, a.id, {x});
        FollowedSelf(db, a, NodeItems({a.id}));
        assert AllUse(db, {a.id}, {x});
      }
    } else {
      var chains :| AllUse(db, chains, {x}) && Followed(db, G(g), NodeItems(chains));
      ListedIsFollowed(db, a, G(g));
      FollowedThrough(db, a, G(g), NodeItems(chains));
    }
  }

  /** A chain that names a group as its primary one brings its own groups to that group. */
  ghost predicate ColumnChainsFound(db: Db) {
    forall g, n, x :: Belongs(db, g, n) && FoundGroup(db, N(n), x) ==> FoundGroup(db, G(g), x)
  }

  /** Where no chain lists a chain, changed groups lose nothing if and only if the chains known by their column bring
      what they use; which holds when all columns are found. */
  lemma FlatLinksKeepGroupsIff(db: Db)
    requires NoChainInChain(db)
    ensures LinksKeepGroups(db) <==> ColumnChainsFound(db)
    ensures ColumnsFound(db) ==> LinksKeepGroups(db)
  {
    if ColumnChainsFound(db) {
      forall a, b, x | Holds(db, a, b) && FoundGroup(db, b, x)
        ensures FoundGroup(db, a, x)
      {
        if Lists(db, a, b) && b.N? {
          ListedIsFollowed(db, a, b);
          FoundThrough(db, a, b.id, x);
        } else if Lists(db, a, b) {
          ListedGroupIsFound(db, a, b.id, x);
        }
      }
    }
    if LinksKeepGroups(db) {
      forall g, n, x | Belongs(db, g, n) && FoundGroup(db, N(n), x)
        ensures FoundGroup(db, G(g), x)
      {
        assert Holds(db, G(g), N(n));
      }
    }
    if ColumnsFound(db) {
      forall g, n, x | Belongs(db, g, n) && FoundGroup(db, N(n), x)
        ensures FoundGroup(db, G(g), x)
      {
        FoundThrough(db, G(g), n, x);
      }
    }
  }

  /** When moreover chains known by their column bring what they use, the analysis of changed groups returns exactly
      the mappings that depend on one of them. */
  lemma ImpactOfGroupsIsExact(db: Db, m: Id, groupIds: seq<Id>)
    requires NoChainInChain(db) && ColumnChainsFound(db)
    ensures (exists item :: MappingLists(db, m, item) && FollowedToGroups(db, item, SetOf(Unique(groupIds))))
            <==> m in db.mappings && exists x :: x in Unique(groupIds) && RowUsesGroup(db, db.mappings[m], x)
  {
    var seeds := SetOf(Unique(groupIds));
    FlatLinksKeepGroupsIff(db);
    GroupImpactIsExactIff(db);
    if item :| MappingLists(db, m, item) && FollowedToGroups(db, item, seeds) {
      var x := FoundForSome(db, item, seeds);
      assert RowLists(db.mappings[m], item);
      assert RowFindsGroup(db, db.mappings[m], x);
    }
    if x :| m in db.mappings && x in Unique(groupIds) && RowUsesGroup(db, db.mappings[m], x) {
      assert RowFindsGroup(db, db.mappings[m], x);
      var item :| RowLists(db.mappings[m], item) && FoundGroup(db, item, x);
      FoundForMore(db, item, x, seeds);
      assert MappingLists(db, m, item);
    }
  }

  lemma LeadsToSome(gr: Graph, g: Id, seeds: set<Id>) returns (x: Id)
    requires LeadsTo(gr, g, seeds)
    ensures x in seeds && LeadsTo(gr, g, {x})
  {
    if g in seeds {
      x := g;
    } else {
      var a, y :| Reaches(gr, g, a) && a in gr && y in seeds && y in gr[a];
      x := y;
      assert x in {x};
    }
  }

  lemma FoundForSome(db: Db, item: Item, seeds: set<Id>) returns (x: Id)
    requires FollowedToGroups(db, item, seeds)
    ensures x in seeds && FoundGroup(db, item, x)
  {
    var gr := GraphOf(db.groups);
    if item.G? && LeadsTo(gr, item.id, seeds) {
      x := LeadsToSome(gr, item.id, seeds);
    } else {
      var chains :| AllUse(db, chains, seeds) && Followed(db, item, NodeItems(chains));
      FollowedToSome(db, item, NodeItems(chains));
      var c :| c in NodeItems(chains) && Followed(db, item, {c});
      assert UsesGroups(db, c.id, seeds);
      var g :| GroupMember(g) in db.nodes[c.id].members && LeadsTo(gr, g, seeds);
      x := LeadsToSome(gr, g, seeds);
      assert UsesGroups(db, c.id, {x});
      assert AllUse(db, {c.id}, {x}) && NodeItems({c.id}) == {c};
    }
  }

  lemma LeadsToMore(gr: Graph, g: Id, x: Id, seeds: set<Id>)
    requires LeadsTo(gr, g, {x}) && x in seeds
    ensures LeadsTo(gr, g, seeds)
  {
    if g != x {
      var a, y :| Reaches(gr, g, a) && a in gr && y in {x} && y in gr[a];
    }
  }

  lemma FoundForMore(db: Db, item: Item, x: Id, seeds: set<Id>)
    requires FoundGroup(db, item, x) && x in seeds
    ensures FollowedToGroups(db, item, seeds)
  {
    var gr := GraphOf(db.groups);
    if item.G? && LeadsTo(gr, item.id, {x}) {
      LeadsToMore(gr, item.id, x, seeds);
    } else {
      var chains :| AllUse(db, chains, {x}) && Followed(db, item, NodeItems(chains));
      forall c | c in chains
        ensures UsesGroups(db, c, seeds)
      {
        var g :| GroupMember(g) in db.nodes[c].members && LeadsTo(gr, g, {x});
        LeadsToMore(gr, g, x, seeds);
      }
      assert AllUse(db, chains, seeds);
    }
  }

  // ---------------------------------------------------------------- what is missed

  /** Mapping m uses group g, which node n names as its primary group without being on its list. */
  function ColumnTables(): Db {
    Db(map["n" := NodeRow(false, [], "g")], map["g" := GroupRow(false, [], [])],
       map["m" := MappingRow(false, [], ["g"], "", "")])
  }

  /** Valid flat tables, reached by an accepted write, in which a change of a node misses a mapping that uses it: a
      sync that rewrites a group's list keeps the column of a node added by hand (updateRootGroupReferences,
      subscription_service.go:743). */
  lemma ColumnHidesMapping()
    ensures var before := ColumnTables().(groups := map["g" := GroupRow(false, ["n"], [])]);
            Valid(before) && Step(before, ImportMembers("g", [], [])) == (ColumnTables(), Accepted)
    ensures Valid(ColumnTables()) && Keyed(ColumnTables()) && NoChainInChain(ColumnTables())
    ensures var row := ColumnTables().mappings["m"];
            RowUsesNode(ColumnTables(), row, "n") && !RowFindsNode(ColumnTables(), row, "n")
  {
    var db := ColumnTables();
    var before := db.(groups := map["g" := GroupRow(false, ["n"], [])]);
    NoChainsValid(db);
    NoChainsValid(before);
    assert WithMembers(before, "g", [], Drop([], {"g"})) == db;
    LinkDepends(db, G("g"), N("n"));
    assert RowLists(db.mappings["m"], G("g"));
    forall item | RowLists(db.mappings["m"], item)
      ensures !FoundNode(db, item, "n")
    {
      NothingBelow(db, item, N("n"));
    }
  }

  lemma NothingBelow(db: Db, item: Item, to: Item)
    requires item != to && forall b :: !Lists(db, item, b)
    ensures !Followed(db, item, {to})
  {
    if Followed(db, item, {to}) {
      var w: seq<Item>, s: Item :| s in {to} && Walk(db, w, item, s) && NodesOnlyBelow(w);
      WalkStarts(db, w, item, s);
    }
  }

  lemma WalkStarts(db: Db, w: seq<Item>, from: Item, to: Item)
    requires Walk(db, w, from, to) && from != to
    ensures exists b :: Lists(db, from, b)
  {
    assert Lists(db, w[0], w[1]);
  }

  /** Mapping m uses group g, which chain c names as its primary group; the chain uses group h. */
  function ColumnChainTables(): Db {
    Db(map["c" := NodeRow(true, [GroupMember("h"), NodeMember("n")], "g"), "n" := NodeRow(false, [], "")],
       map["g" := GroupRow(false, [], []), "h" := GroupRow(false, ["n"], [])],
       map["m" := MappingRow(false, [], ["g"], "", "")])
  }

  /** Here a change of group h misses the mapping. */
  lemma ColumnChainHidesMapping()
    ensures var db := ColumnChainTables();
            && NoChainInChain(db) && RowUsesGroup(db, db.mappings["m"], "h")
               && !RowFindsGroup(db, db.mappings["m"], "h")
  {
    var db := ColumnChainTables();
    assert db.nodes["c"].members[0] == GroupMember("h") && db.nodes["c"].members[1] == NodeMember("n");
    LinkDepends(db, N("c"), G("h"));
    DependsStep(db, G("g"), N("c"), G("h"));
    assert RowLists(db.mappings["m"], G("g"));
    forall item | RowLists(db.mappings["m"], item)
      ensures !FoundGroup(db, item, "h")
    {
      LoneGroupFindsNothing(db, "g", "h");
    }
  }

  lemma LoneGroupFindsNothing(db: Db, g: Id, x: Id)
    requires g in db.groups && db.groups[g].nodeIds == [] && db.groups[g].groupIds == [] && g != x
    ensures !FoundGroup(db, G(g), x)
  {
    var gr := GraphOf(db.groups);
    forall a | Reaches(gr, g, a)
      ensures a == g
    {
      if a != g {
        var b := ReachesFirst(gr, g, a);
      }
    }
    forall chains
      ensures !Followed(db, G(g), NodeItems(chains))
    {
      if Followed(db, G(g), NodeItems(chains)) {
        var w: seq<Item>, s: Item :| s in NodeItems(chains) && Walk(db, w, G(g), s) && NodesOnlyBelow(w);
        WalkStarts(db, w, G(g), s);
      }
    }
  }

  /** A chain that lists a chain over a group hides its mapping: mapping m uses chain d, which lists
      chain c, which uses group g, which holds the changed node n. */
  function HiddenTables(): Db {
    Db(map["n" := NodeRow(false, [], ""),
           "c" := NodeRow(true, [GroupMember("g"), NodeMember("n")], ""),
           "d" := NodeRow(true, [NodeMember("c"), NodeMember("p")], ""),
           "p" := NodeRow(false, [], ""), "q" := NodeRow(false, [], "")],
       map["g" := GroupRow(false, ["q"], [])],
       map["m" := MappingRow(false, ["d"], [], "", "")])
  }

  lemma HiddenWalk(v: seq<Item>, s: Item)
    requires Walk(HiddenTables(), v, N("d"), s) && NodesOnlyBelow(v)
    ensures s in {N("d"), N("c"), N("p"), N("n")}
  {
    var db := HiddenTables();
    assert forall b :: !Lists(db, N("p"), b) && !Lists(db, N("n"), b);
    if s != N("d") && |v| > 1 {
      assert Lists(db, v[0], v[1]);
      WalkTail(db, v, N("d"), s);
      var u := v[1..];
      if v[1] == N("p") {
        if s != N("p") {
          WalkStarts(db, u, N("p"), s);
        }
      } else if |u| > 1 {
        assert Lists(db, u[0], u[1]) && v[2].N?;
        WalkTail(db, u, N("c"), s);
        if s != N("n") {
          WalkStarts(db, u[1..], N("n"), s);
        }
      }
    }
  }

  lemma ChainInChainHidesMapping()
    ensures var row := HiddenTables().mappings["m"];
            RowUsesNode(HiddenTables(), row, "q") && !RowFindsNode(HiddenTables(), row, "q")
  {
    var db := HiddenTables();
    var w := [N("d"), N("c"), G("g"), N("q")];
    assert db.nodes["d"].members[0] == NodeMember("c") && db.nodes["c"].members[0] == GroupMember("g");
    assert Walk(db, w, N("d"), N("q"));
    WalkDepends(db, w, N("d"), N("q"));
    assert RowLists(db.mappings["m"], N("d"));
    forall item | RowLists(db.mappings["m"], item)
      ensures !FoundNode(db, item, "q")
    {
      forall v: seq<Item> | Walk(db, v, item, N("q"))
        ensures !NodesOnlyBelow(v)
      {
        if NodesOnlyBelow(v) {
          HiddenWalk(v, N("q"));
        }
      }
    }
  }
}
