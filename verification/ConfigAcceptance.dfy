/** When a node update is carried out in full (service/proxy/service.go:68-118).  The pending check looks at the new
    row, the membership writes that follow look at the old one, and nothing undoes a write that came before a
    refusal. */
module ConfigAcceptance {
  import opened Ids
  import opened GroupGraph
  import opened ConfigModel
  import opened ConfigWrites
  import opened ConfigEffects

  /** Some chain of the tables uses the group, directly or through other groups. */
  ghost predicate UsedByChain(db: Db, g: Id) {
    exists c :: c in db.nodes && db.nodes[c].isChain
      && ReachesAny(GraphOf(db.groups), GroupIdsOf(db.nodes[c].members), g)
  }

  /** A node may join a group unless it is a chain and the group is used by one. */
  ghost predicate MayJoin(db: Db, n: Id, g: Id)
    requires n in db.nodes
  {
    g in db.groups && !(db.nodes[n].isChain && UsedByChain(db, g))
  }

  /** A node that may join leaves every chain safe, also with the group's child links cut off. */
  lemma JoiningIsValid(db: Db, g: Id, n: Id, nodeIds: seq<Id>)
    requires Valid(db) && n in db.nodes && MayJoin(db, n, g)
    requires forall x :: x in nodeIds && x != n && x in db.nodes ==> x in db.groups[g].nodeIds
    ensures Valid(WithMembers(db, g, nodeIds, []))
  {
    var post := WithMembers(db, g, nodeIds, []);
    if !db.nodes[n].isChain {
      WeakerStaysValid(post, db);
    } else {
      forall c | c in post.nodes && post.nodes[c].isChain
        ensures ChainSafe(post, GroupIdsOf(post.nodes[c].members))
      {
        var seeds := GroupIdsOf(post.nodes[c].members);
        assert ChainSafe(db, seeds);
        UnreachedAfterCut(db, g, nodeIds, seeds);
        UnreachedEdit(db, post, g, seeds);
      }
    }
  }

  lemma UnreachedAfterCut(db: Db, g: Id, nodeIds: seq<Id>, seeds: seq<Id>)
    requires g in db.groups && !ReachesAny(GraphOf(db.groups), seeds, g)
    ensures !ReachesAny(GraphOf(WithMembers(db, g, nodeIds, []).groups), seeds, g)
  {
    var cut := GraphOf(WithMembers(db, g, nodeIds, []).groups);
    if ReachesAny(cut, seeds, g) {
      var s :| s in seeds && Reaches(cut, s, g);
      FewerLinksReachLess(cut, GraphOf(db.groups), s, g);
    }
  }

  /** A chain in a group that a chain uses breaks the invariant, child links or not. */
  lemma JoiningIsInvalid(db: Db, g: Id, n: Id, nodeIds: seq<Id>)
    requires g in db.groups && n in db.nodes && db.nodes[n].isChain && UsedByChain(db, g) && n in nodeIds
    ensures !Valid(WithMembers(db, g, nodeIds, []))
  {
    var post := WithMembers(db, g, nodeIds, []);
    var c :| c in db.nodes && db.nodes[c].isChain
             && ReachesAny(GraphOf(db.groups), GroupIdsOf(db.nodes[c].members), g);
    var seeds := GroupIdsOf(db.nodes[c].members);
    var s :| s in seeds && Reaches(GraphOf(db.groups), s, g);
    FirstArrival(GraphOf(db.groups), s, g, []);
    GraphOfUpdate(db, g, nodeIds, []);
    assert ReachesAny(GraphOf(post.groups), seeds, g) && Belongs(post, g, n);
    assert !ChainSafe(post, GroupIdsOf(post.nodes[c].members));
  }

  lemma JoinAcceptedIff(db: Db, g: Id, n: Id)
    requires Valid(db) && n != "" && n in db.nodes && g != ""
    ensures AddMembership(db, g, [n]).1 == Accepted <==> MayJoin(db, n, g)
  {
    UniqueContents([n]);
    assert n in Unique([n]);
    if g in db.groups {
      var next := Unique(db.groups[g].nodeIds + Unique([n]));
      UniqueContents(db.groups[g].nodeIds + Unique([n]));
      if MayJoin(db, n, g) {
        JoiningIsValid(db, g, n, next);
      } else {
        JoiningIsInvalid(db, g, n, next);
      }
    }
  }

  /** Who uses which group depends on chains and child links alone. */
  lemma SameUse(a: Db, b: Db, g: Id)
    requires a.nodes == b.nodes && a.groups.Keys == b.groups.Keys
    requires forall x :: x in a.groups ==> a.groups[x].groupIds == b.groups[x].groupIds
    ensures UsedByChain(a, g) <==> UsedByChain(b, g)
  {
    assert GraphOf(a.groups) == GraphOf(b.groups);
  }

  lemma {:induction false} AllJoinIff(db: Db, n: Id, gs: seq<Id>)
    requires Valid(db) && n != "" && n in db.nodes && "" !in gs
    ensures AddToAll(db, n, gs).1 == Accepted <==> forall g :: g in gs ==> MayJoin(db, n, g)
    decreases |gs|
  {
    if gs != [] {
      var (d, s) := AddMembership(db, gs[0], [n]);
      assert gs[0] in gs && gs == [gs[0]] + gs[1..];
      JoinAcceptedIff(db, gs[0], n);
      if s == Accepted {
        AddMembershipValid(db, gs[0], [n]);
        AddMembershipChanges(db, gs[0], n);
        AllJoinIff(d, n, gs[1..]);
        forall g | g in gs[1..]
          ensures MayJoin(d, n, g) <==> MayJoin(db, n, g)
        {
          SameUse(d, db, g);
        }
      }
    }
  }

  /** The request names known groups and its checks pass. */
  ghost predicate ChecksPass(db: Db, id: Id, req: NodeRequest) {
    && id in db.nodes && (forall g :: g in Unique(req.groupIds) ==> g in db.groups)
    && NodeChecks(db, id, req, GroupsHolding(db, id, db.nodes[id].groupId), Unique(req.groupIds)) == Accepted
  }

  /** The groups the node is to join. */
  function Joins(db: Db, id: Id, req: NodeRequest): seq<Id>
    requires id in db.nodes
  {
    Drop(Unique(req.groupIds), GroupsHolding(db, id, db.nodes[id].groupId))
  }

  /** The tables once the node has left the groups it was not asked to stay in. */
  function AfterLeaving(db: Db, id: Id, req: NodeRequest): Db
    requires id in db.nodes
  {
    RemoveFromAll(db, id, GroupsHolding(db, id, db.nodes[id].groupId) - SetOf(Unique(req.groupIds)))
  }

  /** An update that passes its checks is carried out in full exactly when the stored row is plain, or no chain uses
      a group the node is to join. */
  lemma CheckedUpdateAcceptedIff(db: Db, id: Id, req: NodeRequest)
    requires Valid(db) && Keyed(db) && ChecksPass(db, id, req)
    ensures NodeUpdate(db, id, req).1 == Accepted <==>
              (db.nodes[id].isChain ==> forall g :: g in Joins(db, id, req) ==> !UsedByChain(db, g))
  {
    var next := Unique(req.groupIds);
    var prev := GroupsHolding(db, id, db.nodes[id].groupId);
    var left := AfterLeaving(db, id, req);
    UniqueContents(req.groupIds);
    DropContents(next, prev);
    RemoveFromAllWeaker(db, id, prev - SetOf(next));
    WeakerStaysValid(left, db);
    AllJoinIff(left, id, Joins(db, id, req));
    forall g | g in Joins(db, id, req)
      ensures MayJoin(left, id, g) <==> !(db.nodes[id].isChain && UsedByChain(db, g))
    {
      SameUse(left, db, g);
    }
  }

  /** A row that is to stay a chain is refused half way only for a group that its own old members use: the check
      has seen to the other chains. */
  lemma StayingChainRefusedByItself(db: Db, id: Id, req: NodeRequest, g: Id)
    requires Valid(db) && Keyed(db) && ChecksPass(db, id, req) && req.isChain
    requires g in Joins(db, id, req) && UsedByChain(db, g)
    ensures db.nodes[id].isChain && ReachesAny(GraphOf(db.groups), GroupIdsOf(db.nodes[id].members), g)
  {
    var next, prev := Unique(req.groupIds), GroupsHolding(db, id, db.nodes[id].groupId);
    DropContents(next, prev);
    UniqueContents(req.groupIds);
    var c :| c in db.nodes && db.nodes[c].isChain
             && ReachesAny(GraphOf(db.groups), GroupIdsOf(db.nodes[c].members), g);
    if c != id {
      CheckSeesOtherChains(db, id, RowOf(req, next), prev, next, g, c);
    }
  }

  lemma CheckSeesOtherChains(db: Db, id: Id, row: NodeRow, prev: set<Id>, next: seq<Id>, g: Id, c: Id)
    requires row.isChain && id != "" && g in next && g != "" && g in db.groups
    requires c in db.nodes && c != id && db.nodes[c].isChain
    requires ReachesAny(GraphOf(db.groups), GroupIdsOf(db.nodes[c].members), g)
    ensures !Valid(PendingDb(db, id, row, prev, next))
  {
    var pending := PendingDb(db, id, row, prev, next);
    PendingHolds(db, id, row, prev, next, g);
    assert GraphOf(pending.groups) == GraphOf(db.groups);
    assert pending.nodes[c] == db.nodes[c];
    assert !ChainSafe(pending, GroupIdsOf(pending.nodes[c].members));
  }

  lemma PendingHolds(db: Db, id: Id, row: NodeRow, prev: set<Id>, next: seq<Id>, g: Id)
    requires id != "" && g in next && g != "" && g in db.groups
    ensures Belongs(PendingDb(db, id, row, prev, next), g, id)
  {
    var rest := Drop(db.groups[g].nodeIds, {id});
    UniqueContents(rest + [id]);
    assert id in (rest + [id]);
    assert g in prev + SetOf(next) - {""};
  }

  /** A refusal half way leaves the row as it was, and the node outside every group it was to leave. */
  lemma RefusedHalfWayHasLeft(db: Db, id: Id, req: NodeRequest)
    requires Keyed(db) && ChecksPass(db, id, req) && NodeUpdate(db, id, req).1 != Accepted
    ensures var d := NodeUpdate(db, id, req).0;
            && d.nodes == db.nodes
            && forall g :: g in db.groups && g in GroupsHolding(db, id,
                                                                db.nodes[id].groupId) - SetOf(Unique(req.groupIds)) ==>
                 id !in d.groups[g].nodeIds
  {
    var next := Unique(req.groupIds);
    var prev := GroupsHolding(db, id, db.nodes[id].groupId);
    UniqueContents(req.groupIds);
    DropContents(next, prev);
    RemoveFromAllWeaker(db, id, prev - SetOf(next));
    AddToAllChanges(AfterLeaving(db, id, req), id, Joins(db, id, req));
  }

  // ---------------------------------------------------------------- an update that is half done

  /** The chain x sits in group h; the chain y uses the empty group g. */
  function TwoChains(): Db {
    var plain := NodeRow(false, [], "");
    Db(map["a" := plain, "b" := plain, "x" := NodeRow(true, [NodeMember("a"), NodeMember("b")], ""),
           "y" := NodeRow(true, [GroupMember("g"), NodeMember("b")], "")],
       map["g" := GroupRow(false, [], []), "h" := GroupRow(false, ["x"], [])], map[])
  }

  /** Make x a plain node of group g. */
  function IntoUsedGroup(): NodeRequest {
    NodeRequest(false, [], ["g"])
  }

  ghost predicate NoChildLinks(db: Db) {
    forall g :: g in db.groups ==> db.groups[g].groupIds == []
  }

  lemma NoLinksReach(db: Db, a: Id, b: Id)
    requires NoChildLinks(db) && Reaches(GraphOf(db.groups), a, b)
    ensures a == b
  {
    if a != b {
      var c := ReachesFirst(GraphOf(db.groups), a, b);
    }
  }

  lemma NoLinksSafe(db: Db, seeds: seq<Id>)
    requires NoChildLinks(db) && forall g, n :: g in seeds && Belongs(db, g, n) ==> !db.nodes[n].isChain
    ensures ChainSafe(db, seeds)
  {
    forall g | ReachesAny(GraphOf(db.groups), seeds, g)
      ensures g in seeds && !OnCycle(GraphOf(db.groups), g)
    {
      var s :| s in seeds && Reaches(GraphOf(db.groups), s, g);
      NoLinksReach(db, s, g);
    }
  }

  lemma MembersOfTwoChains()
    ensures var db := TwoChains();
            GroupIdsOf(db.nodes["x"].members) == [] && GroupIdsOf(db.nodes["y"].members) == ["g"]
  {
    var xs, ys := TwoChains().nodes["x"].members, TwoChains().nodes["y"].members;
    assert xs[1..] == [NodeMember("b")] && xs[1..][1..] == [] && ys[1..] == [NodeMember("b")] && ys[1..][1..] == [];
    assert GroupIdsOf(xs[1..][1..]) == [] && GroupIdsOf(xs[1..]) == [] && GroupIdsOf(ys[1..]) == [];
  }

  lemma TwoChainsAreValid()
    ensures Valid(TwoChains()) && Keyed(TwoChains()) && UsedByChain(TwoChains(), "g")
  {
    var db := TwoChains();
    MembersOfTwoChains();
    NoLinksSafe(db, []);
    NoLinksSafe(db, ["g"]);
    ReachesSelf(GraphOf(db.groups), "g");
    assert ReachesAny(GraphOf(db.groups), GroupIdsOf(db.nodes["y"].members), "g");
  }

  lemma HoldsOnlyH()
    ensures GroupsHolding(TwoChains(), "x", "") == {"h"}
  {
    assert TwoChains().groups["h"].nodeIds[0] == "x";
  }

  lemma PendingGroups(pending: Db)
    requires pending == PendingDb(TwoChains(), "x", NodeRow(false, [], "g"), {"h"}, ["g"])
    ensures NoChildLinks(pending) && "g" in pending.groups && pending.groups["g"].nodeIds == ["x"]
  {
    UniqueOfNormal(["x"]);
    assert Drop(TwoChains().groups["g"].nodeIds, {"x"}) + ["x"] == ["x"];
  }

  lemma PendingNodes(pending: Db)
    requires pending == PendingDb(TwoChains(), "x", NodeRow(false, [], "g"), {"h"}, ["g"])
    ensures forall c :: c in pending.nodes && pending.nodes[c].isChain ==>
              c == "y" && pending.nodes[c] == TwoChains().nodes["y"]
  {
  }

  lemma PendingIsValid(pending: Db)
    requires pending == PendingDb(TwoChains(), "x", NodeRow(false, [], "g"), {"h"}, ["g"])
    ensures Valid(pending)
  {
    MembersOfTwoChains();
    PendingGroups(pending);
    PendingNodes(pending);
    ValidWithOneUser(pending, ["g"]);
  }

  lemma ValidWithOneUser(db: Db, seeds: seq<Id>)
    requires NoChildLinks(db)
    requires forall c :: c in db.nodes && db.nodes[c].isChain ==> GroupIdsOf(db.nodes[c].members) == seeds
    requires forall g, n :: g in seeds && Belongs(db, g, n) ==> !db.nodes[n].isChain
    ensures Valid(db)
  {
    NoLinksSafe(db, seeds);
  }

  lemma IntoUsedGroupChecks()
    ensures ChecksPass(TwoChains(), "x", IntoUsedGroup()) && Joins(TwoChains(), "x", IntoUsedGroup()) == ["g"]
  {
    UniqueOfNormal(["g"]);
    HoldsOnlyH();
    assert ["g"][1..] == [] && Drop([], {"h"}) == [] && Drop(["g"], {"h"}) == ["g"];
    PendingIsValid(PendingDb(TwoChains(), "x", NodeRow(false, [], "g"), {"h"}, ["g"]));
  }

  lemma RefusedHasLeft(db: Db, id: Id, req: NodeRequest, g: Id)
    requires Keyed(db) && ChecksPass(db, id, req) && NodeUpdate(db, id, req).1 != Accepted
    requires g in db.groups && g in GroupsHolding(db, id, db.nodes[id].groupId) && g !in Unique(req.groupIds)
    ensures var d := NodeUpdate(db, id, req).0;
            d.nodes == db.nodes && g in d.groups && id !in d.groups[g].nodeIds
  {
    RefusedHalfWayHasLeft(db, id, req);
  }

  lemma IntoUsedGroupRefused()
    ensures NodeUpdate(TwoChains(), "x", IntoUsedGroup()).1 != Accepted
  {
    TwoChainsAreValid();
    IntoUsedGroupChecks();
    assert "g" in Joins(TwoChains(), "x", IntoUsedGroup());
    CheckedUpdateAcceptedIff(TwoChains(), "x", IntoUsedGroup());
  }

  lemma LeavesH()
    ensures "h" in TwoChains().groups && "h" in GroupsHolding(TwoChains(), "x", TwoChains().nodes["x"].groupId)
    ensures "h" !in Unique(IntoUsedGroup().groupIds) && "x" in TwoChains().groups["h"].nodeIds
  {
    HoldsOnlyH();
    UniqueOfNormal(["g"]);
    assert TwoChains().groups["h"].nodeIds[0] == "x";
  }

  /** The checks pass, the update is refused, and x has left h all the same. */
  lemma UpdateRefusedHalfWay()
    ensures Valid(TwoChains()) && Keyed(TwoChains()) && ChecksPass(TwoChains(), "x", IntoUsedGroup())
    ensures "h" in TwoChains().groups && "x" in TwoChains().groups["h"].nodeIds
    ensures var (d, s) := NodeUpdate(TwoChains(), "x", IntoUsedGroup());
            s != Accepted && d.nodes == TwoChains().nodes && "h" in d.groups && "x" !in d.groups["h"].nodeIds
  {
    TwoChainsAreValid();
    IntoUsedGroupChecks();
    IntoUsedGroupRefused();
    LeavesH();
    RefusedHasLeft(TwoChains(), "x", IntoUsedGroup(), "h");
  }
}
