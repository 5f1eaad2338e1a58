/** The service operations as they run: loops over rows that rewrite the tables in place, each proved
    to take the step ConfigWrites describes. */
module ConfigStore {
  import opened Ids
  import opened GroupGraph
  import opened ConfigModel
  import opened ConfigWrites

  /** chainMemberGroupsContainChainNode (service/proxy/service.go:1411). */
  method GroupsContainChainNode(db: Db, seeds: seq<Id>) returns (found: bool)
    requires Keyed(db)
    ensures found <==>
              exists g, n :: ReachesAny(GraphOf(db.groups), seeds, g) && Belongs(db, g, n) && db.nodes[n].isChain
  {
    var closure := ChainMemberGroupClosure(GraphOf(db.groups), seeds);
    forall g | g in closure
      ensures g in db.groups
    {
      var s :| s in seeds && Reaches(GraphOf(db.groups), s, g);
      ReachesKnown(GraphOf(db.groups), s, g);
    }
    var explicit: set<Id> := {};
    var todo := db.groups.Keys;
    while todo != {}
      invariant todo <= db.groups.Keys
      invariant forall n :: n in explicit <==> exists g :: g in closure && g !in todo && n in db.groups[g].nodeIds
    {
      var g :| g in todo;
      todo := todo - {g};
      if g in closure {
        explicit := explicit + SetOf(db.groups[g].nodeIds);
      }
    }
    todo := db.nodes.Keys;
    while todo != {}
      invariant todo <= db.nodes.Keys
      invariant forall n :: n in db.nodes && n !in todo && db.nodes[n].isChain ==>
                              n !in explicit && db.nodes[n].groupId !in closure
    {
      var n :| n in todo;
      todo := todo - {n};
      if !db.nodes[n].isChain {
        continue;
      }
      if n in explicit {
        ghost var g :| g in closure && n in db.groups[g].nodeIds;
        assert Belongs(db, g, n);
        return true;
      }
      if db.nodes[n].groupId in closure {
        assert Belongs(db, db.nodes[n].groupId, n);
        return true;
      }
    }
    return false;
  }

  /** chainMemberGroupsInvalid (service/proxy/service.go:1395) decides the invariant. */
  method ChainMemberGroupsInvalid(db: Db) returns (invalid: bool)
    requires Keyed(db)
    ensures invalid == !Valid(db)
  {
    var todo := db.nodes.Keys;
    while todo != {}
      invariant todo <= db.nodes.Keys
      invariant forall c :: c in db.nodes && c !in todo && db.nodes[c].isChain ==>
                              ChainSafe(db, GroupIdsOf(db.nodes[c].members))
    {
      var c :| c in todo;
      todo := todo - {c};
      if !db.nodes[c].isChain {
        continue;
      }
      var seeds := GroupIdsOf(db.nodes[c].members);
      if |seeds| == 0 {
        continue;
      }
      var cyclic := HasChainGroupCycle(GraphOf(db.groups), seeds);
      if cyclic {
        return true;
      }
      var holds := GroupsContainChainNode(db, seeds);
      if holds {
        return true;
      }
    }
    return false;
  }

  class Store {
    var nodes: map<Id, NodeRow>
    var groups: map<Id, GroupRow>
    var mappings: map<Id, MappingRow>

    function State(): Db
      reads this
    {
      Db(nodes, groups, mappings)
    }

    /** ensureGroupMembersKeepChainMemberGroupsValid for a group that exists. */
    method MembersStayValid(g: Id, nodeIds: seq<Id>, groupIds: seq<Id>) returns (ok: bool)
      requires Keyed(State()) && g in groups
      ensures ok == Valid(WithMembers(State(), g, nodeIds, groupIds))
    {
      var bad := ChainMemberGroupsInvalid(WithMembers(State(), g, nodeIds, groupIds));
      ok := !bad;
    }

    method AddToMembership(g: Id, ids: seq<Id>) returns (s: Status)
      requires Keyed(State())
      modifies this
      ensures (State(), s) == AddMembership(old(State()), g, ids)
    {
      var unique := UniqueNonEmpty(ids);
      if g == "" || |unique| == 0 {
        return Accepted;
      }
      if g !in groups {
        return GroupNotFound;
      }
      var next := UniqueNonEmpty(groups[g].nodeIds + unique);
      var ok := MembersStayValid(g, next, []);
      if !ok {
        return InvalidChain;
      }
      groups := groups[g := groups[g].(nodeIds := next)];
      return Accepted;
    }

    /** syncNodeGroupMembership (service/proxy/service.go:1151). */
    method SyncMembership(n: Id, prev: set<Id>, next: seq<Id>) returns (s: Status)
      requires Keyed(State())
      modifies this
      ensures (State(), s) == AddToAll(RemoveFromAll(old(State()), n, prev - SetOf(next)), n, Drop(next, prev))
    {
      var leaving := prev - SetOf(next);
      var todo := leaving;
      while todo != {}
        invariant todo <= leaving
        invariant nodes == old(nodes) && mappings == old(mappings)
        invariant groups == RemoveFromAll(old(State()), n, leaving - todo).groups
      {
        var g :| g in todo;
        if g in groups {
          groups := groups[g := groups[g].(nodeIds := Drop(groups[g].nodeIds, {n}))];
        }
        todo := todo - {g};
      }
      assert leaving - {} == leaving;
      assert State() == RemoveFromAll(old(State()), n, leaving);
      ghost var goal := AddToAll(State(), n, Drop(next, prev));
      var targets := Drop(next, prev);
      for i := 0 to |targets|
        invariant Keyed(State()) && goal == AddToAll(State(), n, targets[i..])
      {
        var st := AddToMembership(targets[i], [n]);
        assert targets[i..][1..] == targets[i + 1..];
        if st != Accepted {
          return st;
        }
      }
      assert targets[|targets|..] == [];
      return Accepted;
    }

    /** ensureNodeNotReferencedByChains (service/proxy/service.go:1590). */
    method NodeMentioned(id: Id) returns (mentioned: bool)
      ensures mentioned == MentionedByChain(State(), {id})
    {
      var todo := nodes.Keys;
      while todo != {}
        invariant todo <= nodes.Keys
        invariant forall c :: c in nodes && c !in todo && c != id ==> NodeMember(id) !in nodes[c].members
      {
        var c :| c in todo;
        todo := todo - {c};
        MembersOf(nodes[c].members);
        if c != id && id in NodeIdsOf(nodes[c].members) {
          assert id in {id};
          return true;
        }
      }
      return false;
    }

    method DropNodeFromMappings(id: Id)
      modifies this`mappings
      ensures mappings == WithoutNodes(old(State()), {id}).mappings
    {
      var todo := mappings.Keys;
      while todo != {}
        invariant todo <= mappings.Keys == old(mappings.Keys)
        invariant forall m :: m in mappings ==>
                    mappings[m] == if m in todo then old(mappings[m]) else MappingWithoutNodes(old(mappings[m]), {id})
      {
        var m :| m in todo;
        todo := todo - {m};
        var left := Drop(mappings[m].nodeIds, {id});
        var active := mappings[m].activeNode;
        if !mappings[m].manual {
          active := "";
        } else if active == id {
          active := "";
          if |left| > 0 {
            active := left[0];
          }
        }
        mappings := mappings[m := mappings[m].(nodeIds := left, activeNode := active)];
      }
    }

    method DropNodeFromGroups(id: Id)
      modifies this`groups
      ensures groups == WithoutNodes(old(State()), {id}).groups
    {
      var todo := groups.Keys;
      while todo != {}
        invariant todo <= groups.Keys == old(groups.Keys)
        invariant forall g :: g in groups ==>
                    groups[g] == if g in todo then old(groups[g])
                                 else old(groups[g]).(nodeIds := Drop(old(groups[g].nodeIds), {id}))
      {
        var g :| g in todo;
        todo := todo - {g};
        groups := groups[g := groups[g].(nodeIds := Drop(groups[g].nodeIds, {id}))];
      }
    }

    /** nodeDeleteInTx (service/proxy/service.go:191): every list is rewritten before the row goes. */
    method Delete(id: Id) returns (s: Status)
      modifies this
      ensures (State(), s) == NodeDelete(old(State()), id)
    {
      if id !in nodes {
        return NodeNotFound;
      }
      var mentioned := NodeMentioned(id);
      if mentioned {
        return InvalidChain;
      }
      DropNodeFromMappings(id);
      DropNodeFromGroups(id);
      nodes := nodes - {id};
      assert State() == WithoutNodes(old(State()), {id});
      return Accepted;
    }

    /** ensureGroupNotReferencedByChains (service/proxy/service.go:1612). */
    method GroupUsed(id: Id) returns (used: bool)
      ensures used == GroupsUsedByChains(State(), {id})
    {
      var affected := ExpandAffectedGroups(GraphOf(groups), {id});
      var todo := nodes.Keys;
      while todo != {}
        invariant todo <= nodes.Keys
        invariant forall c, g :: c in nodes && c !in todo && nodes[c].isChain && GroupMember(g) in nodes[c].members ==>
                                   g !in affected
      {
        var c :| c in todo;
        todo := todo - {c};
        MembersOf(nodes[c].members);
        if nodes[c].isChain && exists g :: g in GroupIdsOf(nodes[c].members) && g in affected {
          return true;
        }
      }
      return false;
    }

    /** cleanupGroupReferences on the mappings (service/proxy/group_service.go:177). */
    method DropGroupFromMappings(id: Id)
      modifies this`mappings
      ensures mappings == WithoutGroups(old(State()), {id}).mappings
    {
      var todo := mappings.Keys;
      while todo != {}
        invariant todo <= mappings.Keys == old(mappings.Keys)
        invariant forall m :: m in mappings ==>
                    mappings[m] == if m in todo then old(mappings[m]) else MappingWithoutGroups(old(mappings[m]), {id})
      {
        var m :| m in todo;
        todo := todo - {m};
        var left := Drop(mappings[m].groupIds, {id});
        var active := mappings[m].activeGroup;
        if !mappings[m].manual {
          active := "";
        } else if active == id {
          active := "";
          if |left| > 0 {
            active := left[0];
          }
        }
        mappings := mappings[m := mappings[m].(groupIds := left, activeGroup := active)];
      }
    }

    /** cleanupGroupReferences on the other groups (service/proxy/group_service.go:208). */
    method DropGroupFromGroups(id: Id)
      modifies this`groups
      ensures groups.Keys == old(groups.Keys)
      ensures forall g :: g in groups ==>
                groups[g] == old(groups[g]).(groupIds := Drop(old(groups[g].groupIds), {id}))
    {
      var todo := groups.Keys;
      while todo != {}
        invariant todo <= groups.Keys == old(groups.Keys)
        invariant forall g :: g in groups ==>
                    groups[g] == if g in todo then old(groups[g])
                                 else old(groups[g]).(groupIds := Drop(old(groups[g].groupIds), {id}))
      {
        var g :| g in todo;
        todo := todo - {g};
        groups := groups[g := groups[g].(groupIds := Drop(groups[g].groupIds, {id}))];
      }
    }

    /** groupDeleteInTx (service/proxy/group_service.go:119). */
    method DeleteGroup(id: Id) returns (s: Status)
      modifies this
      ensures (State(), s) == GroupDelete(old(State()), id)
    {
      if id !in groups {
        return GroupNotFound;
      }
      if groups[id].subscription {
        return InvalidGroup;
      }
      var used := GroupUsed(id);
      if used {
        return InvalidChain;
      }
      DropGroupFromMappings(id);
      DropGroupFromGroups(id);
      groups := groups - {id};
      assert State() == WithoutGroups(old(State()), {id});
      nodes := map n | n in nodes :: if nodes[n].groupId == id then nodes[n].(groupId := "") else nodes[n];
      assert nodes == ClearPrimary(WithoutGroups(old(State()), {id}), id, old(nodes.Keys)).nodes;
      return Accepted;
    }

    /** addNodesToGroup (service/proxy/group_service.go:230). */
    method AddNodes(g: Id, ids: seq<Id>) returns (s: Status)
      requires Keyed(State()) && g in groups
      modifies this
      ensures (State(), s) == AddNodesToGroup(old(State()), g, ids)
    {
      var unique := UniqueNonEmpty(ids);
      if |unique| == 0 {
        return Accepted;
      }
      var ok := MembersStayValid(g, unique, []);
      if !ok {
        return InvalidChain;
      }
      var missing := set n | n in nodes && n in unique && nodes[n].groupId == "";
      var st := AddToMembership(g, unique);
      if st != Accepted {
        return st;
      }
      AddMembershipNodes(old(State()), g, unique);
      assert forall n :: n in nodes ==> (n in missing <==> n in ids && nodes[n].groupId == "");
      nodes := map n | n in nodes :: if n in missing then nodes[n].(groupId := g) else nodes[n];
      assert old(Valid(WithMembers(State(), g, Unique(ids), [])));
      assert nodes == AddNodesToGroup(old(State()), g, ids).0.nodes;
      return Accepted;
    }

    /** GroupUpdate (service/proxy/group_service.go:45): the child list is emptied with the new members. */
    method UpdateGroup(id: Id, nodeIds: seq<Id>) returns (s: Status)
      requires Keyed(State())
      modifies this
      ensures (State(), s) == GroupUpdate(old(State()), id, nodeIds)
    {
      if id !in groups {
        return GroupNotFound;
      }
      if groups[id].subscription {
        return InvalidGroup;
      }
      var previous := groups[id].nodeIds;
      var ids := UniqueNonEmpty(nodeIds);
      if exists n :: n in ids && n !in nodes {
        return NodeNotFound;
      }
      var ok := MembersStayValid(id, ids, []);
      if !ok {
        return InvalidChain;
      }
      groups := groups[id := groups[id].(nodeIds := ids, groupIds := [])];
      assert State() == WithMembers(old(State()), id, ids, []);
      var removed := SetOf(previous) - SetOf(ids);
      nodes := map n | n in nodes ::
                 if n in removed && nodes[n].groupId == id then nodes[n].(groupId := "") else nodes[n];
      s := AddNodes(id, ids);
    }

    /** normalizeNodeChainIDs (service/proxy/service.go:1246). */
    method CheckNode(id: Id, req: NodeRequest, prev: set<Id>, next: seq<Id>) returns (s: Status)
      requires Keyed(State())
      requires req.isChain ==> id != ""
      ensures s == NodeChecks(State(), id, req, prev, next)
    {
      var row := RowOf(req, next);
      if !req.isChain {
        if id == "" {
          return Accepted;
        }
        var bad := ChainMemberGroupsInvalid(PendingDb(State(), id, row, prev, next));
        return if bad then InvalidChain else Accepted;
      }
      if |row.members| < 2 || id in NodeIdsOf(row.members) {
        return InvalidChain;
      }
      if exists c :: c in NodeIdsOf(row.members) && (c !in nodes || (c != id && nodes[c].isChain)) {
        return InvalidChain;
      }
      var chosen := GroupIdsOf(row.members);
      if exists g :: g in chosen && g !in groups {
        return InvalidChain;
      }
      var cyclic := HasChainGroupCycle(GraphOf(groups), chosen);
      if cyclic {
        return InvalidChain;
      }
      var bad := ChainMemberGroupsInvalid(PendingDb(State(), id, row, prev, next));
      return if bad then InvalidChain else Accepted;
    }

    /** NodeCreate (service/proxy/service.go:21). */
    method Create(id: Id, req: NodeRequest) returns (s: Status)
      requires Keyed(State()) && Unreferenced(State(), id)
      modifies this
      ensures (State(), s) == NodeCreate(old(State()), id, req)
      ensures old(Valid(State())) ==> Valid(State())
    {
      ghost var before := State();
      var next := UniqueNonEmpty(req.groupIds);
      if exists g :: g in next && g !in groups {
        return GroupNotFound;
      }
      var st := CheckNode(if req.isChain then id else "", req, {}, next);
      if st != Accepted {
        return st;
      }
      nodes := nodes[id := RowOf(req, next)];
      assert State() == before.(nodes := before.nodes[id := RowOf(req, next)]);
      NoneLeaving(State(), id);
      assert {} - SetOf(next) == {};
      DropNothing(next);
      s := SyncMembership(id, {}, next);
      if Valid(before) {
        NodeCreateKeeps(before, id, req);
      }
    }

    /** NodeUpdate (service/proxy/service.go:68). */
    method Update(id: Id, req: NodeRequest) returns (s: Status)
      requires Keyed(State())
      modifies this
      ensures (State(), s) == NodeUpdate(old(State()), id, req)
      ensures old(Valid(State())) ==> Valid(State())
    {
      ghost var before := State();
      if Valid(before) {
        NodeUpdateKeeps(before, id, req);
      }
      if id !in nodes {
        return NodeNotFound;
      }
      var next := UniqueNonEmpty(req.groupIds);
      if exists g :: g in next && g !in groups {
        return GroupNotFound;
      }
      var prev := GroupsHolding(State(), id, nodes[id].groupId);
      var st := CheckNode(id, req, prev, next);
      if st != Accepted {
        return st;
      }
      s := SyncMembership(id, prev, next);
      if s != Accepted {
        return;
      }
      nodes := nodes[id := RowOf(req, next)];
    }
  }

  lemma AddMembershipNodes(db: Db, g: Id, ids: seq<Id>)
    ensures AddMembership(db, g, ids).0.nodes == db.nodes
  {
  }

  lemma NoneLeaving(db: Db, n: Id)
    ensures RemoveFromAll(db, n, {}) == db
  {
  }

  lemma {:induction false} DropNothing(values: seq<Id>)
    ensures Drop(values, {}) == values
  {
    if |values| > 0 {
      DropNothing(values[1..]);
    }
  }
}
