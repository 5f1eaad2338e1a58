/** The configuration tables, the invariant that keeps chains compilable, and every write that may
    touch it.  Tables are finite maps from row identifier to row; only the columns that take part in
    the node/group/chain graph are kept. */
module ConfigModel {
  import opened Ids
  import opened GroupGraph

  datatype Member = NodeMember(id: Id) | GroupMember(id: Id)

  datatype NodeRow = NodeRow(isChain: bool, members: seq<Member>, groupId: Id)

  datatype GroupRow = GroupRow(subscription: bool, nodeIds: seq<Id>, groupIds: seq<Id>)

  datatype MappingRow = MappingRow(manual: bool, nodeIds: seq<Id>, groupIds: seq<Id>, activeNode: Id, activeGroup: Id)

  datatype Db = Db(nodes: map<Id, NodeRow>, groups: map<Id, GroupRow>, mappings: map<Id, MappingRow>)

  datatype Status = Accepted | InvalidChain | InvalidGroup | NodeNotFound | GroupNotFound

  /** A node create or update request after field normalisation. */
  datatype NodeRequest = NodeRequest(isChain: bool, members: seq<Member>, groupIds: seq<Id>)

  // ---------------------------------------------------------------- reading the tables

  function GraphOf(groups: map<Id, GroupRow>): Graph {
    map g | g in groups :: groups[g].groupIds
  }

  /** normalizeChainMembers: first occurrences, empty identifiers dropped. */
  function NormalMembers(members: seq<Member>): seq<Member> {
    if |members| == 0 then []
    else
      var head := NormalMembers(members[..|members| - 1]);
      var m := members[|members| - 1];
      if m.id == "" || m in head then head else head + [m]
  }

  function NodeIdsOf(members: seq<Member>): seq<Id> {
    if |members| == 0 then []
    else (if members[0].NodeMember? then [members[0].id] else []) + NodeIdsOf(members[1..])
  }

  function GroupIdsOf(members: seq<Member>): seq<Id> {
    if |members| == 0 then []
    else (if members[0].GroupMember? then [members[0].id] else []) + GroupIdsOf(members[1..])
  }

  /** Node n sits in group g, by the group's own list or by the node's primary group column. */
  predicate Belongs(db: Db, g: Id, n: Id) {
    && g in db.groups && n in db.nodes
    && (n in db.groups[g].nodeIds || db.nodes[n].groupId == g)
  }

  // ---------------------------------------------------------------- the invariant

  /** One chain's groups: no cycle below them, and no chain node in any group below them. */
  ghost predicate ChainSafe(db: Db, seeds: seq<Id>) {
    && !CycleReachable(GraphOf(db.groups), seeds)
    && forall g, n :: ReachesAny(GraphOf(db.groups), seeds, g) && Belongs(db, g, n) ==> !db.nodes[n].isChain
  }

  /** Every chain's groups are safe: the negation of chainMemberGroupsInvalid. */
  ghost predicate Valid(db: Db) {
    forall c :: c in db.nodes && db.nodes[c].isChain ==> ChainSafe(db, GroupIdsOf(db.nodes[c].members))
  }

  // ---------------------------------------------------------------- two ways to stay valid

  /** small has no chain, member, child link or chain membership that big lacks. */
  ghost predicate Weaker(small: Db, big: Db) {
    && (forall g :: g in small.groups ==>
          g in big.groups && forall x :: x in small.groups[g].groupIds ==> x in big.groups[g].groupIds)
    && (forall c :: c in small.nodes && small.nodes[c].isChain ==>
          && c in big.nodes && big.nodes[c].isChain
          && forall x :: x in GroupIdsOf(small.nodes[c].members) ==> x in GroupIdsOf(big.nodes[c].members))
    && (forall g, n :: Belongs(small, g, n) && small.nodes[n].isChain ==> Belongs(big, g, n))
  }

  lemma WeakerReaches(small: Db, big: Db, seeds: seq<Id>, more: seq<Id>, g: Id)
    requires Weaker(small, big)
    requires forall x :: x in seeds ==> x in more
    requires ReachesAny(GraphOf(small.groups), seeds, g)
    ensures ReachesAny(GraphOf(big.groups), more, g)
  {
    var s :| s in seeds && Reaches(GraphOf(small.groups), s, g);
    FewerLinksReachLess(GraphOf(small.groups), GraphOf(big.groups), s, g);
  }

  /** Removing things never breaks a chain. */
  lemma WeakerStaysValid(small: Db, big: Db)
    requires Weaker(small, big) && Valid(big)
    ensures Valid(small)
  {
    var gs, gb := GraphOf(small.groups), GraphOf(big.groups);
    forall c | c in small.nodes && small.nodes[c].isChain
      ensures ChainSafe(small, GroupIdsOf(small.nodes[c].members))
    {
      var seeds, more := GroupIdsOf(small.nodes[c].members), GroupIdsOf(big.nodes[c].members);
      assert ChainSafe(big, more);
      if CycleReachable(gs, seeds) {
        var a :| ReachesAny(gs, seeds, a) && OnCycle(gs, a);
        WeakerReaches(small, big, seeds, more, a);
        var b :| Edge(gs, a, b) && Reaches(gs, b, a);
        FewerLinksReachLess(gs, gb, b, a);
        assert Edge(gb, a, b);
        assert false;
      }
      forall g, n | ReachesAny(gs, seeds, g) && Belongs(small, g, n)
        ensures !small.nodes[n].isChain
      {
        WeakerReaches(small, big, seeds, more, g);
      }
    }
  }

  function WithMembers(db: Db, g: Id, nodeIds: seq<Id>, groupIds: seq<Id>): Db
    requires g in db.groups
  {
    db.(groups := db.groups[g := db.groups[g].(nodeIds := nodeIds, groupIds := groupIds)])
  }

  /** The way to a group does not use the group's own child links. */
  lemma FirstArrival(g: Graph, s: Id, t: Id, links: seq<Id>)
    requires t in g && Reaches(g, s, t)
    ensures Reaches(g[t := links], s, t)
  {
    var p :| PathFromTo(g, p, s, t);
    var k := FirstIndex(p, t);
    var q := p[..k + 1];
    forall i | 0 <= i < |q| - 1
      ensures Edge(g[t := links], q[i], q[i + 1])
    {
      assert Edge(g, p[i], p[i + 1]);
    }
    assert PathFromTo(g[t := links], q, s, t);
  }

  lemma {:induction false} FirstIndex(p: seq<Id>, t: Id) returns (k: nat)
    requires t in p
    ensures k < |p| && p[k] == t && t !in p[..k]
  {
    if p[0] == t {
      k := 0;
    } else {
      assert p == [p[0]] + p[1..];
      k := FirstIndex(p[1..], t);
      assert p[..k + 1] == [p[0]] + p[1..][..k];
      k := k + 1;
    }
  }

  lemma GraphOfUpdate(db: Db, t: Id, nodeIds: seq<Id>, groupIds: seq<Id>)
    requires t in db.groups
    ensures GraphOf(WithMembers(db, t, nodeIds, groupIds).groups) == GraphOf(db.groups)[t := groupIds]
  {
  }

  /** Adding members checks the group with its child list cut off; together with the invariant that
      already held, this is enough for the state that is really written. */
  lemma CutCheckSuffices(db: Db, t: Id, nodeIds: seq<Id>)
    requires t in db.groups && Valid(db)
    requires Valid(WithMembers(db, t, nodeIds, []))
    ensures Valid(WithMembers(db, t, nodeIds, db.groups[t].groupIds))
  {
    var cut, post := WithMembers(db, t, nodeIds, []), WithMembers(db, t, nodeIds, db.groups[t].groupIds);
    var g := GraphOf(db.groups);
    GraphOfUpdate(db, t, nodeIds, []);
    assert GraphOf(post.groups) == g;
    forall c | c in post.nodes && post.nodes[c].isChain
      ensures ChainSafe(post, GroupIdsOf(post.nodes[c].members))
    {
      var seeds := GroupIdsOf(post.nodes[c].members);
      assert ChainSafe(db, seeds) && ChainSafe(cut, seeds);
      forall x, n | ReachesAny(g, seeds, x) && Belongs(post, x, n)
        ensures !post.nodes[n].isChain
      {
        if x == t {
          var s :| s in seeds && Reaches(g, s, t);
          FirstArrival(g, s, t, []);
          assert ReachesAny(GraphOf(cut.groups), seeds, t);
          assert Belongs(cut, t, n);
        } else {
          assert Belongs(db, x, n);
        }
      }
    }
  }

  /** A group that is already reachable from a chain does not list itself, so dropping the group's own
      name before the check loses nothing. */
  lemma SelfLinkCheckSuffices(db: Db, t: Id, nodeIds: seq<Id>, groupIds: seq<Id>, checked: seq<Id>)
    requires t in db.groups && Valid(db)
    requires forall x :: x in checked <==> x in groupIds && x != t
    requires t in groupIds ==> t in db.groups[t].groupIds
    requires Valid(WithMembers(db, t, nodeIds, checked))
    ensures Valid(WithMembers(db, t, nodeIds, groupIds))
  {
    var part, post := WithMembers(db, t, nodeIds, checked), WithMembers(db, t, nodeIds, groupIds);
    var g, gp := GraphOf(db.groups), GraphOf(post.groups);
    GraphOfUpdate(db, t, nodeIds, groupIds);
    GraphOfUpdate(db, t, nodeIds, checked);
    forall c | c in post.nodes && post.nodes[c].isChain
      ensures ChainSafe(post, GroupIdsOf(post.nodes[c].members))
    {
      var seeds := GroupIdsOf(post.nodes[c].members);
      assert ChainSafe(db, seeds) && ChainSafe(part, seeds);
      if ReachesAny(gp, seeds, t) {
        var s :| s in seeds && Reaches(gp, s, t);
        FirstArrival(gp, s, t, db.groups[t].groupIds);
        assert gp[t := db.groups[t].groupIds] == g;
        assert ReachesAny(g, seeds, t);
        if t in groupIds {
          assert Edge(g, t, t);
          ReachesSelf(g, t);
          assert false;
        }
        SameLinks(part, post, seeds);
      } else {
        UnreachedEdit(db, post, t, seeds);
      }
    }
  }

  /** Two states whose child lists hold the same names agree on safety. */
  lemma SameLinks(a: Db, b: Db, seeds: seq<Id>)
    requires ChainSafe(a, seeds)
    requires a.nodes == b.nodes && a.groups.Keys == b.groups.Keys
    requires forall g :: g in a.groups ==> a.groups[g].nodeIds == b.groups[g].nodeIds
    requires forall g, x :: g in a.groups ==> (x in a.groups[g].groupIds <==> x in b.groups[g].groupIds)
    ensures ChainSafe(b, seeds)
  {
    var ga, gb := GraphOf(a.groups), GraphOf(b.groups);
    forall x | ReachesAny(gb, seeds, x)
      ensures ReachesAny(ga, seeds, x)
    {
      var s :| s in seeds && Reaches(gb, s, x);
      FewerLinksReachLess(gb, ga, s, x);
    }
    forall x | OnCycle(gb, x)
      ensures OnCycle(ga, x)
    {
      var y :| Edge(gb, x, y) && Reaches(gb, y, x);
      FewerLinksReachLess(gb, ga, y, x);
      assert Edge(ga, x, y);
    }
    forall x, n | ReachesAny(gb, seeds, x) && Belongs(b, x, n)
      ensures !b.nodes[n].isChain
    {
      assert Belongs(a, x, n);
    }
  }

  /** Editing a group no seed reaches leaves what the seeds reach as it was. */
  lemma UnreachedEdit(db: Db, post: Db, t: Id, seeds: seq<Id>)
    requires t in db.groups && ChainSafe(db, seeds)
    requires post.nodes == db.nodes && post.groups.Keys == db.groups.Keys
    requires forall g :: g in db.groups && g != t ==> post.groups[g] == db.groups[g]
    requires !ReachesAny(GraphOf(post.groups), seeds, t)
    ensures ChainSafe(post, seeds)
  {
    var g, gp := GraphOf(db.groups), GraphOf(post.groups);
    forall x | ReachesAny(gp, seeds, x)
      ensures x != t && ReachesAny(g, seeds, x)
    {
      var s :| s in seeds && Reaches(gp, s, x);
      var p :| PathFromTo(gp, p, s, x);
      PathAvoids(g, gp, p, s, t, seeds);
      assert PathFromTo(g, p, s, x);
    }
    if CycleReachable(gp, seeds) {
      var a :| ReachesAny(gp, seeds, a) && OnCycle(gp, a);
      var b :| Edge(gp, a, b) && Reaches(gp, b, a);
      var s :| s in seeds && Reaches(gp, s, a);
      ReachesThen(gp, s, a, b);
      var p :| PathFromTo(gp, p, b, a);
      CyclePathAvoids(g, gp, p, s, b, t, seeds);
      assert PathFromTo(g, p, b, a);
      assert a != t && Edge(g, a, b);
      assert false;
    }
    forall x, n | ReachesAny(gp, seeds, x) && Belongs(post, x, n)
      ensures !post.nodes[n].isChain
    {
      assert Belongs(db, x, n);
    }
  }

  lemma {:induction false} PathAvoids(g: Graph, gp: Graph, p: seq<Id>, s: Id, t: Id, seeds: seq<Id>)
    requires IsPath(gp, p) && p[0] == s && s in seeds
    requires !ReachesAny(gp, seeds, t)
    requires g.Keys == gp.Keys && forall x :: x in g && x != t ==> g[x] == gp[x]
    ensures t !in p && IsPath(g, p)
  {
    forall i | 0 <= i < |p|
      ensures p[i] != t
    {
      var q := p[..i + 1];
      forall j | 0 <= j < |q| - 1
        ensures Edge(gp, q[j], q[j + 1])
      {
        assert Edge(gp, p[j], p[j + 1]);
      }
      assert PathFromTo(gp, q, s, p[i]);
      assert Reaches(gp, s, p[i]);
    }
    forall i | 0 <= i < |p| - 1
      ensures Edge(g, p[i], p[i + 1])
    {
      assert Edge(gp, p[i], p[i + 1]);
    }
  }

  lemma CyclePathAvoids(g: Graph, gp: Graph, p: seq<Id>, s: Id, b: Id, t: Id, seeds: seq<Id>)
    requires IsPath(gp, p) && p[0] == b && s in seeds && Reaches(gp, s, b)
    requires !ReachesAny(gp, seeds, t)
    requires g.Keys == gp.Keys && forall x :: x in g && x != t ==> g[x] == gp[x]
    ensures t !in p && IsPath(g, p)
  {
    if ReachesAny(gp, [b], t) {
      var r :| r in [b] && Reaches(gp, r, t);
      ReachesTransitive(gp, s, b, t);
      assert false;
    }
    PathAvoids(g, gp, p, b, t, [b]);
  }
}
