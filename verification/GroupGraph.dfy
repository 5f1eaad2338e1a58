/** The directed graph of nested groups: what reachability and cycles mean, and the two depth-first
    searches of service/proxy/service.go proved against that meaning. */
module GroupGraph {
  import opened Ids

  /** Known groups with their child lists (the byID table built at service/proxy/service.go:1545). */
  type Graph = map<Id, seq<Id>>

  /** A child link that leads to a known group; links to unknown groups are ignored. */
  predicate Edge(g: Graph, a: Id, b: Id) {
    a in g && b in g && b in g[a]
  }

  ghost predicate IsPath(g: Graph, p: seq<Id>) {
    && |p| > 0
    && p[0] in g
    && forall i :: 0 <= i < |p| - 1 ==> Edge(g, p[i], p[i + 1])
  }

  ghost predicate PathFromTo(g: Graph, p: seq<Id>, a: Id, b: Id) {
    IsPath(g, p) && p[0] == a && p[|p| - 1] == b
  }

  /** b is a or lies below a. */
  ghost predicate Reaches(g: Graph, a: Id, b: Id) {
    exists p :: PathFromTo(g, p, a, b)
  }

  ghost predicate ReachesAny(g: Graph, seeds: seq<Id>, b: Id) {
    exists s :: s in seeds && Reaches(g, s, b)
  }

  /** a can be reached again after at least one step. */
  ghost predicate OnCycle(g: Graph, a: Id) {
    exists c :: Edge(g, a, c) && Reaches(g, c, a)
  }

  ghost predicate CycleReachable(g: Graph, seeds: seq<Id>) {
    exists a :: ReachesAny(g, seeds, a) && OnCycle(g, a)
  }

  ghost predicate ClosedUnderEdges(g: Graph, s: set<Id>) {
    forall a, b :: a in s && Edge(g, a, b) ==> b in s
  }

  lemma ReachesSelf(g: Graph, a: Id)
    requires a in g
    ensures Reaches(g, a, a)
  {
    assert PathFromTo(g, [a], a, a);
  }

  lemma ReachesStep(g: Graph, a: Id, b: Id, c: Id)
    requires Edge(g, a, b) && Reaches(g, b, c)
    ensures Reaches(g, a, c)
  {
    var p :| PathFromTo(g, p, b, c);
    assert PathFromTo(g, [a] + p, a, c);
  }

  lemma ReachesThen(g: Graph, a: Id, b: Id, c: Id)
    requires Reaches(g, a, b) && Edge(g, b, c)
    ensures Reaches(g, a, c)
  {
    var p :| PathFromTo(g, p, a, b);
    assert PathFromTo(g, p + [c], a, c);
  }

  lemma ReachesKnown(g: Graph, a: Id, b: Id)
    requires Reaches(g, a, b)
    ensures a in g && b in g
  {
    var p :| PathFromTo(g, p, a, b);
    if |p| > 1 {
      assert Edge(g, p[|p| - 2], p[|p| - 1]);
    }
  }

  lemma ReachesFirst(g: Graph, a: Id, b: Id) returns (c: Id)
    requires Reaches(g, a, b) && a != b
    ensures Edge(g, a, c) && Reaches(g, c, b)
  {
    var p :| PathFromTo(g, p, a, b);
    c := p[1];
    assert Edge(g, p[0], p[1]);
    var q := p[1..];
    forall i | 0 <= i < |q| - 1
      ensures Edge(g, q[i], q[i + 1])
    {
      assert Edge(g, p[i + 1], p[i + 2]);
    }
    assert PathFromTo(g, q, c, b);
  }

  /** A set closed under child links holds everything below its members. */
  lemma {:induction false} ClosedHoldsPath(g: Graph, s: set<Id>, p: seq<Id>)
    requires ClosedUnderEdges(g, s) && IsPath(g, p) && p[0] in s
    ensures p[|p| - 1] in s
    decreases |p|
  {
    if |p| > 1 {
      var q := p[..|p| - 1];
      assert IsPath(g, q);
      ClosedHoldsPath(g, s, q);
      assert Edge(g, p[|p| - 2], p[|p| - 1]);
    }
  }

  lemma ClosedHoldsReachable(g: Graph, s: set<Id>, a: Id, b: Id)
    requires ClosedUnderEdges(g, s) && a in s && Reaches(g, a, b)
    ensures b in s
  {
    var p :| PathFromTo(g, p, a, b);
    ClosedHoldsPath(g, s, p);
  }

  lemma {:induction false} PathsCompose(g: Graph, p: seq<Id>, q: seq<Id>)
    requires IsPath(g, p) && IsPath(g, q) && p[|p| - 1] == q[0]
    ensures PathFromTo(g, p + q[1..], p[0], q[|q| - 1])
  {
    var r := p + q[1..];
    forall i | 0 <= i < |r| - 1
      ensures Edge(g, r[i], r[i + 1])
    {
      if i < |p| - 1 {
        assert Edge(g, p[i], p[i + 1]);
      } else {
        assert Edge(g, q[i - |p| + 1], q[i - |p| + 2]);
      }
    }
  }

  lemma ReachesTransitive(g: Graph, a: Id, b: Id, c: Id)
    requires Reaches(g, a, b) && Reaches(g, b, c)
    ensures Reaches(g, a, c)
  {
    var p :| PathFromTo(g, p, a, b);
    var q :| PathFromTo(g, q, b, c);
    PathsCompose(g, p, q);
  }

  /** Fewer groups and fewer child links reach no more. */
  lemma {:induction false} FewerLinksReachLess(small: Graph, big: Graph, a: Id, b: Id)
    requires forall x :: x in small ==> x in big && forall y :: y in small[x] ==> y in big[x]
    requires Reaches(small, a, b)
    ensures Reaches(big, a, b)
  {
    var p :| PathFromTo(small, p, a, b);
    forall i | 0 <= i < |p| - 1
      ensures Edge(big, p[i], p[i + 1])
    {
      assert Edge(small, p[i], p[i + 1]);
    }
    assert PathFromTo(big, p, a, b);
  }

  /** Finished groups: closed under child links and free of cycles. */
  ghost predicate Settled(g: Graph, visited: set<Id>) {
    && ClosedUnderEdges(g, visited)
    && forall b :: b in visited ==> b in g && !OnCycle(g, b)
  }

  /** Closing a settled set with a group all of whose children are settled keeps it settled. */
  lemma SettleOne(g: Graph, visited: set<Id>, id: Id)
    requires Settled(g, visited) && id in g && id !in visited
    requires forall c :: Edge(g, id, c) ==> c in visited
    ensures Settled(g, visited + {id})
  {
    if OnCycle(g, id) {
      var c :| Edge(g, id, c) && Reaches(g, c, id);
      ClosedHoldsReachable(g, visited, c, id);
      assert false;
    }
  }

  /** The grey groups form a path: meeting one again closes a cycle below the root of the search. */
  lemma GreyHitIsCycle(g: Graph, stack: seq<Id>, id: Id)
    requires IsPath(g, stack) && id in stack && Edge(g, stack[|stack| - 1], id)
    ensures Reaches(g, stack[0], id) && OnCycle(g, id)
  {
    var k :| 0 <= k < |stack| && stack[k] == id;
    assert PathFromTo(g, stack[..k + 1], stack[0], id);
    var tail := stack[k..];
    forall i | 0 <= i < |tail| - 1
      ensures Edge(g, tail[i], tail[i + 1])
    {
      assert Edge(g, stack[k + i], stack[k + i + 1]);
    }
    if |tail| == 1 {
      ReachesSelf(g, id);
      assert Edge(g, id, id);
    } else {
      var rest := tail[1..] + [id];
      forall i | 0 <= i < |rest| - 1
        ensures Edge(g, rest[i], rest[i + 1])
      {
        if i + 2 < |tail| {
          assert Edge(g, tail[i + 1], tail[i + 2]);
        }
      }
      assert Edge(g, tail[0], tail[1]);
      assert PathFromTo(g, rest, tail[1], id);
    }
  }

  /** No seed below a settled set can reach a cycle. */
  lemma SettledSeeds(g: Graph, visited: set<Id>, seeds: seq<Id>)
    requires Settled(g, visited)
    requires forall s :: s in seeds && s in g ==> s in visited
    ensures !CycleReachable(g, seeds)
  {
    if CycleReachable(g, seeds) {
      var a :| ReachesAny(g, seeds, a) && OnCycle(g, a);
      var s :| s in seeds && Reaches(g, s, a);
      ReachesKnown(g, s, a);
      ClosedHoldsReachable(g, visited, s, a);
      assert false;
    }
  }

  /** White/grey/black search for a cycle (service/proxy/service.go:1539). */
  class CycleSearch {
    const children: Graph
    var visited: set<Id>
    var visiting: set<Id>

    constructor (children: Graph)
      ensures this.children == children && visited == {} && visiting == {}
    {
      this.children := children;
      visited := {};
      visiting := {};
    }

    ghost predicate Consistent()
      reads this
    {
      "" !in children && Settled(children, visited) && visiting <= children.Keys && visiting !! visited
    }

    /** The groups being visited form a path from the root of the search. */
    ghost predicate OnPath(stack: seq<Id>, root: Id) {
      |stack| > 0 ==> stack[0] == root && IsPath(children, stack)
    }

    /** id is the root, or a child of the group visited last. */
    ghost predicate Next(stack: seq<Id>, root: Id, id: Id) {
      if |stack| == 0 then id == root else id in children ==> Edge(children, stack[|stack| - 1], id)
    }

    ghost predicate CycleBelow(root: Id)
    {
      exists a :: Reaches(children, root, a) && OnCycle(children, a)
    }

    lemma PathGrows(stack: seq<Id>, root: Id, id: Id)
      requires OnPath(stack, root) && Next(stack, root, id) && id in children
      ensures OnPath(stack + [id], root) && SetOf(stack + [id]) == SetOf(stack) + {id}
    {
    }

    method Visit(id: Id, ghost stack: seq<Id>, ghost root: Id) returns (found: bool)
      requires Consistent() && visiting == SetOf(stack) && OnPath(stack, root) && Next(stack, root, id)
      modifies this
      ensures !found ==> Consistent() && visiting == old(visiting) && old(visited) <= visited
      ensures !found && id in children ==> id in visited
      ensures found ==> CycleBelow(root)
      decreases |children.Keys - visiting|, 0
    {
      if id == "" {
        return false;
      }
      if id in visiting {
        GreyHitIsCycle(children, stack, id);
        return true;
      }
      if id in visited {
        return false;
      }
      if id !in children {
        return false;
      }
      SubsetShrinks(children.Keys, visiting, id);
      PathGrows(stack, root, id);
      visiting := visiting + {id};
      var hit := VisitAll(id, children[id], stack + [id], root);
      if hit {
        return true;
      }
      visiting := visiting - {id};
      assert visiting == old(visiting);
      SettleOne(children, visited, id);
      visited := visited + {id};
      return false;
    }

    /** The loop over the child groups. */
    method VisitAll(id: Id, kids: seq<Id>, ghost stack: seq<Id>, ghost root: Id) returns (found: bool)
      requires Consistent() && visiting == SetOf(stack) && OnPath(stack, root)
      requires id in children && kids == children[id] && |stack| > 0 && stack[|stack| - 1] == id
      modifies this
      ensures !found ==> Consistent() && visiting == old(visiting) && old(visited) <= visited
      ensures !found ==> forall c :: Edge(children, id, c) ==> c in visited
      ensures found ==> CycleBelow(root)
      decreases |children.Keys - visiting|, 1
    {
      for i := 0 to |kids|
        invariant Consistent() && visiting == old(visiting) && old(visited) <= visited
        invariant forall k :: 0 <= k < i && kids[k] in children ==> kids[k] in visited
      {
        assert kids[i] in kids;
        var hit := Visit(kids[i], stack, root);
        if hit {
          return true;
        }
      }
      return false;
    }
  }

  lemma SubsetShrinks(all: set<Id>, seen: set<Id>, id: Id)
    requires id in all && id !in seen
    ensures |all - (seen + {id})| < |all - seen|
  {
    assert all - seen == (all - (seen + {id})) + {id};
  }

  /** The search answers true exactly when a cycle can be reached from a seed. */
  method HasChainGroupCycle(groups: Graph, seeds: seq<Id>) returns (cyclic: bool)
    requires "" !in groups
    ensures cyclic == CycleReachable(groups, seeds)
  {
    var unique := UniqueNonEmpty(seeds);
    if |unique| == 0 {
      SettledSeeds(groups, {}, seeds);
      return false;
    }
    var search := new CycleSearch(groups);
    for i := 0 to |unique|
      invariant search.children == groups && search.Consistent() && search.visiting == {}
      invariant forall k :: 0 <= k < i && unique[k] in groups ==> unique[k] in search.visited
    {
      var hit := search.Visit(unique[i], [], unique[i]);
      if hit {
        assert unique[i] in seeds;
        ghost var a :| Reaches(groups, unique[i], a) && OnCycle(groups, a);
        assert ReachesAny(groups, seeds, a);
        return true;
      }
    }
    SettledSeeds(groups, search.visited, seeds);
    return false;
  }

  /** The reachability search of chainMemberGroupClosure (service/proxy/service.go:1445). */
  class ClosureSearch {
    const children: Graph
    var visited: set<Id>

    constructor (children: Graph)
      ensures this.children == children && visited == {}
    {
      this.children := children;
      visited := {};
    }

    method Visit(id: Id)
      requires visited <= children.Keys && "" !in children
      modifies this
      ensures old(visited) <= visited <= children.Keys
      ensures id in children ==> id in visited
      ensures forall a, b :: a in visited - old(visited) && Edge(children, a, b) ==> b in visited
      ensures forall a :: a in visited - old(visited) ==> Reaches(children, id, a)
      decreases |children.Keys - visited|
    {
      if id == "" {
        return;
      }
      if id in visited {
        return;
      }
      if id !in children {
        return;
      }
      SubsetShrinks(children.Keys, visited, id);
      visited := visited + {id};
      ReachesSelf(children, id);
      var kids := children[id];
      for i := 0 to |kids|
        invariant old(visited) + {id} <= visited <= children.Keys
        invariant forall a, b :: a in visited - old(visited) - {id} && Edge(children, a, b) ==> b in visited
        invariant forall k :: 0 <= k < i && kids[k] in children ==> kids[k] in visited
        invariant forall a :: a in visited - old(visited) ==> Reaches(children, id, a)
      {
        ghost var before := visited;
        SubsetSize(children.Keys - before, children.Keys - (old(visited) + {id}));
        Visit(kids[i]);
        forall a | a in visited - before
          ensures Reaches(children, id, a)
        {
          ReachesKnown(children, kids[i], a);
          ReachesStep(children, id, kids[i], a);
        }
      }
    }
  }

  /** The closure is exactly the set of known groups reachable from the seeds. */
  method ChainMemberGroupClosure(groups: Graph, seeds: seq<Id>) returns (visited: set<Id>)
    requires "" !in groups
    ensures forall g :: g in visited <==> ReachesAny(groups, seeds, g)
  {
    var search := new ClosureSearch(groups);
    var unique := UniqueNonEmpty(seeds);
    for i := 0 to |unique|
      invariant search.children == groups && search.visited <= groups.Keys
      invariant ClosedUnderEdges(groups, search.visited)
      invariant forall k :: 0 <= k < i && unique[k] in groups ==> unique[k] in search.visited
      invariant forall a :: a in search.visited ==> ReachesAny(groups, seeds, a)
    {
      ghost var before := search.visited;
      search.Visit(unique[i]);
      forall a | a in search.visited - before
        ensures ReachesAny(groups, seeds, a)
      {
        assert unique[i] in seeds && Reaches(groups, unique[i], a);
      }
    }
    visited := search.visited;
    forall g | ReachesAny(groups, seeds, g)
      ensures g in visited
    {
      var s :| s in seeds && Reaches(groups, s, g);
      ReachesKnown(groups, s, g);
      assert s in unique;
      ClosedHoldsReachable(groups, visited, s, g);
    }
  }

  /** Group from is one of the seeds, or lies above a group that lists a seed; the seeds themselves
      need not be known. */
  ghost predicate LeadsTo(g: Graph, from: Id, seeds: set<Id>) {
    from in seeds || exists a, x :: Reaches(g, from, a) && a in g && x in seeds && x in g[a]
  }

  ghost predicate ClosedUpwards(g: Graph, s: set<Id>) {
    forall a, b :: a in g && b in g[a] && b in s ==> a in s
  }

  lemma LeadsToStep(g: Graph, a: Id, b: Id, seeds: set<Id>)
    requires a in g && b in g[a] && LeadsTo(g, b, seeds)
    ensures LeadsTo(g, a, seeds)
  {
    if b in seeds {
      ReachesSelf(g, a);
    } else {
      var c, x :| Reaches(g, b, c) && c in g && x in seeds && x in g[c];
      ReachesKnown(g, b, c);
      ReachesStep(g, a, b, c);
    }
  }

  lemma {:induction false} ClosedUpwardsHoldsPath(g: Graph, s: set<Id>, p: seq<Id>)
    requires ClosedUpwards(g, s) && IsPath(g, p) && p[|p| - 1] in s
    ensures p[0] in s
    decreases |p|
  {
    if |p| > 1 {
      var q := p[..|p| - 1];
      assert IsPath(g, q);
      assert Edge(g, p[|p| - 2], p[|p| - 1]);
      ClosedUpwardsHoldsPath(g, s, q);
    }
  }

  lemma ClosedUpwardsHolds(g: Graph, s: set<Id>, seeds: set<Id>, from: Id)
    requires ClosedUpwards(g, s) && seeds <= s && LeadsTo(g, from, seeds)
    ensures from in s
  {
    if from !in seeds {
      var a, x :| Reaches(g, from, a) && a in g && x in seeds && x in g[a];
      var p :| PathFromTo(g, p, from, a);
      assert a in s;
      ClosedUpwardsHoldsPath(g, s, p);
    }
  }

  /** The growing loop of expandAffectedGroups (service/proxy/runtime_reconcile.go:189) stops, and what
      it has gathered is exactly the groups that lead to a seed. */
  method ExpandAffectedGroups(groups: Graph, seeds: set<Id>) returns (affected: set<Id>)
    ensures forall g :: g in affected <==> LeadsTo(groups, g, seeds)
    ensures affected <= seeds + groups.Keys
  {
    affected := seeds;
    var changed := true;
    while changed
      invariant seeds <= affected <= seeds + groups.Keys
      invariant forall g :: g in affected ==> LeadsTo(groups, g, seeds)
      invariant !changed ==> ClosedUpwards(groups, affected)
      decreases |seeds + groups.Keys - affected|, changed
    {
      changed := false;
      ghost var before := affected;
      var todo := groups.Keys;
      while todo != {}
        invariant todo <= groups.Keys && before <= affected <= seeds + groups.Keys
        invariant forall g :: g in affected ==> LeadsTo(groups, g, seeds)
        invariant !changed ==> affected == before
        invariant changed ==> |seeds + groups.Keys - affected| < |seeds + groups.Keys - before|
        invariant !changed ==>
                    forall a, b :: a in groups.Keys - todo && b in groups[a] && b in affected ==> a in affected
      {
        var g :| g in todo;
        todo := todo - {g};
        if g in affected {
          continue;
        }
        var kids := groups[g];
        for i := 0 to |kids|
          invariant g !in affected
          invariant forall k :: 0 <= k < i ==> kids[k] !in affected
        {
          if kids[i] in affected {
            LeadsToStep(groups, g, kids[i], seeds);
            SubsetShrinks(seeds + groups.Keys, affected, g);
            affected := affected + {g};
            changed := true;
            break;
          }
        }
      }
    }
    forall g | LeadsTo(groups, g, seeds)
      ensures g in affected
    {
      ClosedUpwardsHolds(groups, affected, seeds, g);
    }
  }
}
