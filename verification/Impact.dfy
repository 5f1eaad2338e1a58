/** Which port mappings a change of nodes or groups touches (service/proxy/runtime_reconcile.go). */
module Impact {
  import opened Ids
  import opened GroupGraph
  import opened ConfigModel
  import opened ConfigWrites
  import opened ConfigEffects

  // ---------------------------------------------------------------- what a mapping depends on

  datatype Item = N(id: Id) | G(id: Id)

  /** a lists b: a chain its members, a group its nodes and child groups. */
  predicate Lists(db: Db, a: Item, b: Item) {
    match a
    case N(c) => c in db.nodes && db.nodes[c].isChain
                 && (if b.N? then NodeMember(b.id) in db.nodes[c].members else GroupMember(b.id) in db.nodes[c].members)
    case G(g) => g in db.groups && (if b.N? then b.id in db.groups[g].nodeIds else b.id in db.groups[g].groupIds)
  }

  ghost predicate Walk(db: Db, w: seq<Item>, from: Item, to: Item) {
    && |w| > 0 && w[0] == from && w[|w| - 1] == to
    && forall i :: 0 <= i < |w| - 1 ==> Lists(db, w[i], w[i + 1])
  }

  /** Once a walk goes from a chain straight to a node it stays among nodes. */
  ghost predicate NodesOnlyBelow(w: seq<Item>) {
    forall i, j :: 0 <= i < |w| - 1 && w[i].N? && w[i + 1].N? && i <= j < |w| ==> w[j].N?
  }

  /** The dependencies the analysis follows. */
  ghost predicate Followed(db: Db, from: Item, seeds: set<Item>) {
    exists w: seq<Item>, s: Item :: s in seeds && Walk(db, w, from, s) && NodesOnlyBelow(w)
  }

  ghost predicate FollowedDown(db: Db, from: Item, seeds: set<Item>) {
    exists w: seq<Item>, s: Item :: s in seeds && Walk(db, w, from, s) && forall i :: 0 <= i < |w| ==> w[i].N?
  }

  predicate MappingLists(db: Db, m: Id, item: Item) {
    m in db.mappings && (if item.N? then item.id in db.mappings[m].nodeIds else item.id in db.mappings[m].groupIds)
  }

  ghost function NodeItems(ids: set<Id>): set<Item> {
    set x | x in ids :: N(x)
  }

  // ---------------------------------------------------------------- walks

  lemma WalkPrepend(db: Db, a: Item, w: seq<Item>, b: Item, s: Item)
    requires Lists(db, a, b) && Walk(db, w, b, s)
    ensures Walk(db, [a] + w, a, s)
  {
    var v := [a] + w;
    forall i | 0 <= i < |v| - 1
      ensures Lists(db, v[i], v[i + 1])
    {
      if i > 0 {
        assert Lists(db, w[i - 1], w[i]);
      }
    }
  }

  lemma FollowedSelf(db: Db, s: Item, seeds: set<Item>)
    requires s in seeds
    ensures Followed(db, s, seeds) && (s.N? ==> FollowedDown(db, s, seeds))
  {
    assert Walk(db, [s], s, s);
  }

  lemma FollowedDownIsFollowed(db: Db, a: Item, seeds: set<Item>)
    requires FollowedDown(db, a, seeds)
    ensures Followed(db, a, seeds)
  {
  }

  lemma FollowedStep(db: Db, a: Item, b: Item, seeds: set<Item>)
    requires Lists(db, a, b) && Followed(db, b, seeds) && (a.G? || b.G?)
    ensures Followed(db, a, seeds)
  {
    var w: seq<Item>, s: Item :| s in seeds && Walk(db, w, b, s) && NodesOnlyBelow(w);
    WalkPrepend(db, a, w, b, s);
    var v := [a] + w;
    forall i, j | 0 <= i < |v| - 1 && v[i].N? && v[i + 1].N? && i <= j < |v|
      ensures v[j].N?
    {
      assert i > 0;
      assert w[i - 1].N? && w[i].N?;
      assert w[j - 1].N?;
    }
  }

  lemma FollowedDownStep(db: Db, a: Item, b: Item, seeds: set<Item>)
    requires Lists(db, a, b) && a.N? && FollowedDown(db, b, seeds)
    ensures FollowedDown(db, a, seeds)
  {
    var w: seq<Item>, s: Item :| s in seeds && Walk(db, w, b, s) && forall i :: 0 <= i < |w| ==> w[i].N?;
    WalkPrepend(db, a, w, b, s);
  }

  /** A walk that reaches a chain from a chain has nothing left to walk when chains are flat. */
  lemma FlatWalksAreFollowed(db: Db, w: seq<Item>, from: Item, to: Item)
    requires NoChainInChain(db) && Walk(db, w, from, to)
    ensures NodesOnlyBelow(w)
  {
    forall k | 0 <= k < |w| - 1 && w[k].N?
      ensures w[k].id in db.nodes && db.nodes[w[k].id].isChain
    {
      assert Lists(db, w[k], w[k + 1]);
    }
    forall i, j | 0 <= i < |w| - 1 && w[i].N? && w[i + 1].N? && i <= j < |w|
      ensures w[j].N?
    {
      assert Lists(db, w[i], w[i + 1]);
    }
  }

  // ---------------------------------------------------------------- closed sets hold every walk

  ghost predicate ClosedDown(db: Db, nodes: set<Id>) {
    forall a: Item, b: Item :: a.N? && b.N? && Lists(db, a, b) && b.id in nodes ==> a.id in nodes
  }

  ghost predicate ClosedAround(db: Db, nodes: set<Id>, groups: set<Id>) {
    forall a: Item, b: Item :: Lists(db, a, b) && (a.G? || b.G?) && (if b.N? then b.id in nodes else b.id in groups) ==>
                     if a.N? then a.id in nodes else a.id in groups
  }

  lemma {:induction false} ClosedDownHolds(db: Db, w: seq<Item>, nodes: set<Id>, from: Item, s: Item)
    requires ClosedDown(db, nodes) && Walk(db, w, from, s) && s.id in nodes
    requires forall i :: 0 <= i < |w| ==> w[i].N?
    ensures from.id in nodes
    decreases |w|
  {
    if |w| > 1 {
      assert Lists(db, w[0], w[1]);
      WalkTail(db, w, from, s);
      ClosedDownHolds(db, w[1..], nodes, w[1], s);
    }
  }

  lemma WalkTail(db: Db, w: seq<Item>, from: Item, s: Item)
    requires Walk(db, w, from, s) && |w| > 1
    ensures Walk(db, w[1..], w[1], s)
  {
    var v := w[1..];
    forall i | 0 <= i < |v| - 1
      ensures Lists(db, v[i], v[i + 1])
    {
      assert Lists(db, w[i + 1], w[i + 2]);
    }
  }

  lemma {:induction false} ClosedHoldsWalk(db: Db, w: seq<Item>, down: set<Id>, nodes: set<Id>, groups: set<Id>,
                                           from: Item, s: Item)
    requires ClosedDown(db, down) && down <= nodes && ClosedAround(db, nodes, groups)
    requires Walk(db, w, from, s) && NodesOnlyBelow(w) && s.N? && s.id in down
    ensures if from.N? then from.id in nodes else from.id in groups
    decreases |w|
  {
    if |w| > 1 {
      assert Lists(db, w[0], w[1]);
      if w[0].N? && w[1].N? {
        ClosedDownHolds(db, w, down, from, s);
      } else {
        WalkTail(db, w, from, s);
        var v := w[1..];
        forall i, j | 0 <= i < |v| - 1 && v[i].N? && v[i + 1].N? && i <= j < |v|
          ensures v[j].N?
        {
          assert w[i + 1].N? && w[i + 2].N?;
          assert w[j + 1].N?;
        }
        ClosedHoldsWalk(db, v, down, nodes, groups, w[1], s);
      }
    }
  }

  // ---------------------------------------------------------------- the analysis

  function Intersects(first: seq<Id>, second: set<Id>): bool {
    exists v :: v in first && v in second
  }

  /** runtimeAffectedMappingIDsByNodesAndGroups (runtime_reconcile.go:166). */
  method MappingsListing(db: Db, nodes: set<Id>, groups: set<Id>) returns (ids: set<Id>)
    ensures forall m :: m in ids <==>
              m in db.mappings && (Intersects(db.mappings[m].nodeIds, nodes)
                                   || Intersects(db.mappings[m].groupIds, groups))
  {
    ids := {};
    var todo := db.mappings.Keys;
    while todo != {}
      invariant todo <= db.mappings.Keys
      invariant forall m ::
                  m in ids <==>
                    && m in db.mappings && m !in todo
                    && (Intersects(db.mappings[m].nodeIds, nodes) || Intersects(db.mappings[m].groupIds, groups))
    {
      var m :| m in todo;
      todo := todo - {m};
      if Intersects(db.mappings[m].nodeIds, nodes) || Intersects(db.mappings[m].groupIds, groups) {
        ids := ids + {m};
      }
    }
  }

  /** One sweep over the node rows: chains that list an already affected node directly. */
  method SweepChainsBelow(db: Db, current: set<Id>, ghost all: set<Id>, ghost seeds: set<Item>)
    returns (affected: set<Id>, changed: bool)
    requires current <= all && db.nodes.Keys <= all
    requires forall n :: n in current ==> FollowedDown(db, N(n), seeds)
    ensures current <= affected <= all
    ensures forall n :: n in affected ==> FollowedDown(db, N(n), seeds)
    ensures changed ==> |all - affected| < |all - current|
    ensures !changed ==> affected == current && ClosedDown(db, affected)
  {
    affected := current;
    changed := false;
    var todo := db.nodes.Keys;
    while todo != {}
      invariant todo <= db.nodes.Keys && current <= affected <= all
      invariant forall n :: n in affected ==> FollowedDown(db, N(n), seeds)
      invariant !changed ==> affected == current
      invariant changed ==> |all - affected| < |all - current|
      invariant forall c ::
                  c in db.nodes && c !in todo && db.nodes[c].isChain
                    && Intersects(NodeIdsOf(db.nodes[c].members), current) ==>
                    c in affected
    {
      var c :| c in todo;
      todo := todo - {c};
      if !db.nodes[c].isChain || c in affected {
        continue;
      }
      if Intersects(NodeIdsOf(db.nodes[c].members), current) {
        ghost var x :| x in NodeIdsOf(db.nodes[c].members) && x in current;
        MembersOf(db.nodes[c].members);
        FollowedDownStep(db, N(c), N(x), seeds);
        SubsetShrinks(all, affected, c);
        affected := affected + {c};
        changed := true;
      }
    }
    if !changed {
      ListedBelow(db, affected);
    }
  }

  lemma ListedBelow(db: Db, nodes: set<Id>)
    requires forall c :: c in db.nodes && db.nodes[c].isChain && Intersects(NodeIdsOf(db.nodes[c].members), nodes) ==>
               c in nodes
    ensures ClosedDown(db, nodes)
  {
    forall a: Item, b: Item | a.N? && b.N? && Lists(db, a, b) && b.id in nodes
      ensures a.id in nodes
    {
      MembersOf(db.nodes[a.id].members);
      assert b.id in NodeIdsOf(db.nodes[a.id].members);
    }
  }

  /** First fixpoint: sweep until no chain is added (runtime_reconcile.go:38). */
  method AffectedChainsBelow(db: Db, seeds: set<Id>) returns (affected: set<Id>)
    ensures seeds <= affected && ClosedDown(db, affected)
    ensures forall n :: n in affected ==> Followed(db, N(n), NodeItems(seeds))
  {
    affected := seeds;
    ghost var all := seeds + db.nodes.Keys;
    forall n | n in seeds
      ensures FollowedDown(db, N(n), NodeItems(seeds))
    {
      FollowedSelf(db, N(n), NodeItems(seeds));
    }
    var changed := true;
    while changed
      invariant seeds <= affected <= all
      invariant forall n :: n in affected ==> FollowedDown(db, N(n), NodeItems(seeds))
      invariant !changed ==> ClosedDown(db, affected)
      decreases |all - affected|, changed
    {
      affected, changed := SweepChainsBelow(db, affected, all, NodeItems(seeds));
    }
    forall n | n in affected
      ensures Followed(db, N(n), NodeItems(seeds))
    {
      FollowedDownIsFollowed(db, N(n), NodeItems(seeds));
    }
  }

  /** One sweep over the node rows: chains that use an affected group. */
  method SweepChainsAround(db: Db, current: set<Id>, groups: set<Id>, ghost all: set<Id>, ghost seeds: set<Item>)
    returns (nodes: set<Id>, changed: bool)
    requires current <= all && db.nodes.Keys <= all
    requires forall n :: n in current ==> Followed(db, N(n), seeds)
    requires forall g :: g in groups ==> Followed(db, G(g), seeds)
    ensures current <= nodes <= all
    ensures forall n :: n in nodes ==> Followed(db, N(n), seeds)
    ensures changed ==> |all - nodes| < |all - current|
    ensures !changed ==> nodes == current
    ensures forall c ::
              c in db.nodes && db.nodes[c].isChain && Intersects(GroupIdsOf(db.nodes[c].members), groups) ==> c in nodes
  {
    nodes := current;
    changed := false;
    var todo := db.nodes.Keys;
    while todo != {}
      invariant todo <= db.nodes.Keys && current <= nodes <= all
      invariant forall n :: n in nodes ==> Followed(db, N(n), seeds)
      invariant !changed ==> nodes == current
      invariant changed ==> |all - nodes| < |all - current|
      invariant forall c ::
                  c in db.nodes && c !in todo && db.nodes[c].isChain
                    && Intersects(GroupIdsOf(db.nodes[c].members), groups) ==>
                    c in nodes
    {
      var c :| c in todo;
      todo := todo - {c};
      if !db.nodes[c].isChain || c in nodes {
        continue;
      }
      if Intersects(GroupIdsOf(db.nodes[c].members), groups) {
        ghost var g :| g in GroupIdsOf(db.nodes[c].members) && g in groups;
        MembersOf(db.nodes[c].members);
        FollowedStep(db, N(c), G(g), seeds);
        SubsetShrinks(all, nodes, c);
        nodes := nodes + {c};
        changed := true;
      }
    }
  }

  /** Groups with an affected member or an affected child, added to those already known. */
  method GrowGroups(db: Db, known: set<Id>, nodes: set<Id>, ghost seeds: set<Item>) returns (groups: set<Id>)
    requires known <= db.groups.Keys
    requires forall g :: g in known ==> Followed(db, G(g), seeds)
    requires forall n :: n in nodes ==> Followed(db, N(n), seeds)
    ensures known <= groups <= db.groups.Keys
    ensures forall g :: g in groups ==> Followed(db, G(g), seeds)
    ensures forall g :: g in db.groups && Intersects(db.groups[g].nodeIds, nodes) ==> g in groups
    ensures ClosedUpwards(GraphOf(db.groups), groups)
  {
    var direct := known;
    var todo := db.groups.Keys;
    while todo != {}
      invariant todo <= db.groups.Keys && known <= direct <= db.groups.Keys
      invariant forall g :: g in direct ==> Followed(db, G(g), seeds)
      invariant forall g :: g in db.groups && g !in todo && Intersects(db.groups[g].nodeIds, nodes) ==> g in direct
    {
      var g :| g in todo;
      todo := todo - {g};
      if g in direct {
        continue;
      }
      if Intersects(db.groups[g].nodeIds, nodes) {
        ghost var n :| n in db.groups[g].nodeIds && n in nodes;
        FollowedStep(db, G(g), N(n), seeds);
        direct := direct + {g};
      }
    }
    groups := ExpandAffectedGroups(GraphOf(db.groups), direct);
    forall g | g in groups
      ensures Followed(db, G(g), seeds)
    {
      LeadsToFollowed(db, g, direct, seeds);
    }
    LeadsToClosed(GraphOf(db.groups), direct, groups);
    forall g | g in direct
      ensures g in groups
    {
      assert LeadsTo(GraphOf(db.groups), g, direct);
    }
  }

  lemma LeadsToClosed(g: Graph, seeds: set<Id>, all: set<Id>)
    requires forall x :: x in all <==> LeadsTo(g, x, seeds)
    ensures ClosedUpwards(g, all)
  {
    forall a, b | a in g && b in g[a] && b in all
      ensures a in all
    {
      LeadsToStep(g, a, b, seeds);
    }
  }

  lemma LeadsToFollowed(db: Db, g: Id, direct: set<Id>, seeds: set<Item>)
    requires LeadsTo(GraphOf(db.groups), g, direct)
    requires forall x :: x in direct ==> Followed(db, G(x), seeds)
    ensures Followed(db, G(g), seeds)
  {
    if g !in direct {
      var gr := GraphOf(db.groups);
      var a, x :| Reaches(gr, g, a) && a in gr && x in direct && x in gr[a];
      FollowedStep(db, G(a), G(x), seeds);
      var p :| PathFromTo(gr, p, g, a);
      FollowedUpPath(db, p, seeds);
    }
  }

  lemma {:induction false} FollowedUpPath(db: Db, p: seq<Id>, seeds: set<Item>)
    requires IsPath(GraphOf(db.groups), p) && Followed(db, G(p[|p| - 1]), seeds)
    ensures Followed(db, G(p[0]), seeds)
    decreases |p|
  {
    if |p| > 1 {
      var q := p[..|p| - 1];
      assert Edge(GraphOf(db.groups), p[|p| - 2], p[|p| - 1]);
      assert IsPath(GraphOf(db.groups), q);
      FollowedStep(db, G(p[|p| - 2]), G(p[|p| - 1]), seeds);
      FollowedUpPath(db, q, seeds);
    }
  }

  /** Second fixpoint: groups above affected nodes, chains that use them, until neither grows
      (runtime_reconcile.go:61). */
  method AffectedAround(db: Db, below: set<Id>, ghost seeds: set<Item>) returns (nodes: set<Id>, groups: set<Id>)
    requires forall n :: n in below ==> Followed(db, N(n), seeds)
    ensures below <= nodes && ClosedAround(db, nodes, groups)
    ensures forall n :: n in nodes ==> Followed(db, N(n), seeds)
    ensures forall g :: g in groups ==> Followed(db, G(g), seeds)
  {
    nodes := below;
    groups := {};
    var settled := false;
    ghost var all := below + db.nodes.Keys;
    while !settled
      invariant below <= nodes <= all && groups <= db.groups.Keys
      invariant forall n :: n in nodes ==> Followed(db, N(n), seeds)
      invariant forall g :: g in groups ==> Followed(db, G(g), seeds)
      invariant settled ==> ClosedAround(db, nodes, groups)
      decreases |all - nodes| + |db.groups.Keys - groups|, !settled
    {
      var grown := GrowGroups(db, groups, nodes, seeds);
      var groupChanged := grown != groups;
      GrowthShrinksRest(db.groups.Keys, groups, grown);
      groups := grown;
      var nodeChanged;
      ghost var before := nodes;
      nodes, nodeChanged := SweepChainsAround(db, nodes, groups, all, seeds);
      GrowthShrinksRest(all, before, nodes);
      if !groupChanged && !nodeChanged {
        SettledAround(db, nodes, groups);
        settled := true;
      }
    }
  }

  /** Both fixpoints: the affected nodes and groups are exactly those followed to a seed. */
  method AffectedSets(db: Db, start: set<Id>) returns (nodes: set<Id>, groups: set<Id>)
    ensures forall item :: Followed(db, item, NodeItems(start)) <==>
              if item.N? then item.id in nodes else item.id in groups
  {
    var below := AffectedChainsBelow(db, start);
    nodes, groups := AffectedAround(db, below, NodeItems(start));
    forall item
      ensures Followed(db, item, NodeItems(start)) <==> if item.N? then item.id in nodes else item.id in groups
    {
      if Followed(db, item, NodeItems(start)) {
        FollowedIsHeld(db, item, start, below, nodes, groups);
      }
    }
  }

  /** runtimeAffectedMappingIDsByNodes (runtime_reconcile.go:14): the result is exactly the mappings
      with a followed dependency on a seed. */
  method AffectedByNodes(db: Db, nodeIds: seq<Id>) returns (ids: set<Id>)
    ensures forall m :: m in ids <==>
              exists item :: MappingLists(db, m, item) && Followed(db, item, NodeItems(SetOf(Unique(nodeIds))))
  {
    var unique := UniqueNonEmpty(nodeIds);
    ghost var start := SetOf(unique);
    if |unique| == 0 {
      NothingFollowsNothing(db, start);
      return {};
    }
    var nodes, groups := AffectedSets(db, SetOf(unique));
    ids := MappingsListing(db, nodes, groups);
    MappingsFollowed(db, ids, nodes, groups, NodeItems(start));
  }

  lemma FollowedIsHeld(db: Db, item: Item, start: set<Id>, down: set<Id>, nodes: set<Id>, groups: set<Id>)
    requires start <= down <= nodes && ClosedDown(db, down) && ClosedAround(db, nodes, groups)
    requires Followed(db, item, NodeItems(start))
    ensures if item.N? then item.id in nodes else item.id in groups
  {
    var w: seq<Item>, s: Item :| s in NodeItems(start) && Walk(db, w, item, s) && NodesOnlyBelow(w);
    ClosedHoldsWalk(db, w, down, nodes, groups, item, s);
  }

  lemma GrowthShrinksRest(all: set<Id>, a: set<Id>, b: set<Id>)
    requires a <= b <= all
    ensures |all - b| <= |all - a| && (a != b ==> |all - b| < |all - a|)
  {
    SubsetSize(all - b, all - a);
    if a != b {
      var x :| x in b && x !in a;
      SubsetSize(all - b, all - a - {x});
    }
  }

  lemma SettledAround(db: Db, nodes: set<Id>, groups: set<Id>)
    requires ClosedUpwards(GraphOf(db.groups), groups)
    requires forall g :: g in db.groups && Intersects(db.groups[g].nodeIds, nodes) ==> g in groups
    requires forall c :: c in db.nodes && db.nodes[c].isChain && Intersects(GroupIdsOf(db.nodes[c].members), groups) ==>
               c in nodes
    ensures ClosedAround(db, nodes, groups)
  {
    forall a: Item, b: Item | Lists(db, a, b) && (a.G? || b.G?) && (if b.N? then b.id in nodes else b.id in groups)
      ensures if a.N? then a.id in nodes else a.id in groups
    {
      if a.N? {
        MembersOf(db.nodes[a.id].members);
        assert b.id in GroupIdsOf(db.nodes[a.id].members);
      }
    }
  }

  lemma MappingsFollowed(db: Db, ids: set<Id>, nodes: set<Id>, groups: set<Id>, seeds: set<Item>)
    requires forall m :: m in ids <==>
               m in db.mappings && (Intersects(db.mappings[m].nodeIds, nodes)
                                    || Intersects(db.mappings[m].groupIds, groups))
    requires forall n :: n in nodes ==> Followed(db, N(n), seeds)
    requires forall g :: g in groups ==> Followed(db, G(g), seeds)
    requires forall item :: Followed(db, item, seeds) ==> if item.N? then item.id in nodes else item.id in groups
    ensures forall m :: m in ids <==> exists item :: MappingLists(db, m, item) && Followed(db, item, seeds)
  {
    forall m | m in ids
      ensures exists item :: MappingLists(db, m, item) && Followed(db, item, seeds)
    {
      if Intersects(db.mappings[m].nodeIds, nodes) {
        var n :| n in db.mappings[m].nodeIds && n in nodes;
        assert MappingLists(db, m, N(n));
      } else {
        var g :| g in db.mappings[m].groupIds && g in groups;
        assert MappingLists(db, m, G(g));
      }
    }
    forall m | exists item :: MappingLists(db, m, item) && Followed(db, item, seeds)
      ensures m in ids
    {
      var item :| MappingLists(db, m, item) && Followed(db, item, seeds);
    }
  }

  /** A chain one of whose groups leads to a seed group. */
  ghost predicate UsesGroups(db: Db, c: Id, seeds: set<Id>) {
    && c in db.nodes && db.nodes[c].isChain
    && exists g :: GroupMember(g) in db.nodes[c].members && LeadsTo(GraphOf(db.groups), g, seeds)
  }

  ghost predicate AllUse(db: Db, chains: set<Id>, seeds: set<Id>) {
    forall c :: c in chains ==> UsesGroups(db, c, seeds)
  }

  /** The dependencies followed from seed groups: up through groups, or to a chain that uses them and
      on from there. */
  ghost predicate FollowedToGroups(db: Db, item: Item, seeds: set<Id>) {
    || (item.G? && LeadsTo(GraphOf(db.groups), item.id, seeds))
    || exists chains :: AllUse(db, chains, seeds) && Followed(db, item, NodeItems(chains))
  }

  /** runtimeAffectedMappingIDsByGroups (runtime_reconcile.go:113). */
  method AffectedByGroups(db: Db, groupIds: seq<Id>) returns (ids: set<Id>)
    requires Keyed(db)
    ensures forall m :: m in ids <==>
              exists item :: MappingLists(db, m, item) && FollowedToGroups(db, item, SetOf(Unique(groupIds)))
  {
    var unique := UniqueNonEmpty(groupIds);
    ghost var seeds := SetOf(unique);
    if |unique| == 0 {
      forall item | FollowedToGroups(db, item, seeds)
        ensures false
      {
        FollowedToGroupsNeedsSeeds(db, item, seeds);
      }
      return {};
    }
    var expanded := ExpandAffectedGroups(GraphOf(db.groups), SetOf(unique));
    var chains: seq<Id> := [];
    var todo := db.nodes.Keys;
    while todo != {}
      invariant todo <= db.nodes.Keys
      invariant forall c :: c in chains <==> c !in todo && UsesGroups(db, c, seeds)
    {
      var c :| c in todo;
      todo := todo - {c};
      MembersOf(db.nodes[c].members);
      if db.nodes[c].isChain && Intersects(GroupIdsOf(db.nodes[c].members), expanded) {
        ghost var g :| g in GroupIdsOf(db.nodes[c].members) && g in expanded;
        assert GroupMember(g) in db.nodes[c].members;
        chains := chains + [c];
      } else if db.nodes[c].isChain {
        forall g | GroupMember(g) in db.nodes[c].members
          ensures !LeadsTo(GraphOf(db.groups), g, seeds)
        {
          assert g in GroupIdsOf(db.nodes[c].members);
        }
      }
    }
    var byGroup := MappingsListing(db, {}, expanded);
    var byNode := {};
    UniqueContents(chains);
    ghost var users := SetOf(Unique(chains));
    if |chains| > 0 {
      byNode := AffectedByNodes(db, chains);
    } else {
      NothingFollowsNothing(db, users);
    }
    ids := byGroup + byNode;
    forall c | UsesGroups(db, c, seeds)
      ensures c in users
    {
      assert c in chains && c != "";
    }
    forall m
      ensures m in byGroup <==> exists item :: MappingLists(db, m, item) && item.G? && item.id in expanded
    {
      if m in byGroup {
        var g :| g in db.mappings[m].groupIds && g in expanded;
        assert MappingLists(db, m, G(g));
      }
    }
    forall item
      ensures FollowedToGroups(db, item, seeds) <==>
              (item.G? && item.id in expanded) || Followed(db, item, NodeItems(users))
    {
      UsersSuffice(db, item, seeds, users);
    }
  }

  lemma NothingFollowsNothing(db: Db, none: set<Id>)
    requires none == {}
    ensures forall item :: !Followed(db, item, NodeItems(none))
  {
  }

  lemma FollowedToGroupsNeedsSeeds(db: Db, item: Item, seeds: set<Id>)
    requires FollowedToGroups(db, item, seeds)
    ensures seeds != {}
  {
    if !(item.G? && LeadsTo(GraphOf(db.groups), item.id, seeds)) {
      var chains :| AllUse(db, chains, seeds) && Followed(db, item, NodeItems(chains));
      var w: seq<Item>, s: Item :| s in NodeItems(chains) && Walk(db, w, item, s);
      assert UsesGroups(db, s.id, seeds);
    }
  }

  lemma UsersSuffice(db: Db, item: Item, seeds: set<Id>, users: set<Id>)
    requires forall c :: c in users <==> UsesGroups(db, c, seeds)
    ensures FollowedToGroups(db, item, seeds) <==>
            (item.G? && LeadsTo(GraphOf(db.groups), item.id, seeds)) || Followed(db, item, NodeItems(users))
  {
    if FollowedToGroups(db, item, seeds) && !(item.G? && LeadsTo(GraphOf(db.groups), item.id, seeds)) {
      var chains :| AllUse(db, chains, seeds) && Followed(db, item, NodeItems(chains));
      var w: seq<Item>, s: Item :| s in NodeItems(chains) && Walk(db, w, item, s) && NodesOnlyBelow(w);
      assert s in NodeItems(users);
    }
  }
}
