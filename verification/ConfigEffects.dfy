/** What accepted writes achieve, and the two places where they achieve less than asked: a chain may
    become a direct member of a chain, and a requested group may silently not hold the node. */
module ConfigEffects {
  import opened Ids
  import opened GroupGraph
  import opened ConfigModel
  import opened ConfigWrites

  // ---------------------------------------------------------------- deletes leave nothing behind

  /** After an accepted delete no chain, group or mapping names the node. */
  lemma DeletedNodeIsNowhere(db: Db, id: Id)
    requires NodeDelete(db, id).1 == Accepted
    ensures var d := NodeDelete(db, id).0;
            && id !in d.nodes && d.nodes.Keys == db.nodes.Keys - {id}
            && (forall c :: c in d.nodes ==> d.nodes[c] == db.nodes[c] && NodeMember(id) !in d.nodes[c].members)
            && (forall g :: g in d.groups ==> id !in d.groups[g].nodeIds)
            && (forall m :: m in d.mappings ==>
                  id !in d.mappings[m].nodeIds && (id != "" ==> d.mappings[m].activeNode != id))
  {
    var d := NodeDelete(db, id).0;
    WithoutNodesWeaker(db, {id});
    forall c | c in d.nodes
      ensures NodeMember(id) !in d.nodes[c].members
    {
      assert c !in {id} && id in {id};
    }
    forall m | m in d.mappings
      ensures id !in d.mappings[m].nodeIds && (id != "" ==> d.mappings[m].activeNode != id)
    {
      DropContents(db.mappings[m].nodeIds, {id});
      var left := Drop(db.mappings[m].nodeIds, {id});
      assert left != [] ==> left[0] in left;
    }
  }

  /** After an accepted delete no chain, group, mapping or node names the group. */
  lemma DeletedGroupIsNowhere(db: Db, id: Id)
    requires id != "" && GroupDelete(db, id).1 == Accepted
    ensures var d := GroupDelete(db, id).0;
            && d.groups.Keys == db.groups.Keys - {id}
            && (forall c :: c in d.nodes ==> d.nodes[c].groupId != id)
            && (forall c :: c in d.nodes && d.nodes[c].isChain ==> GroupMember(id) !in d.nodes[c].members)
            && (forall g :: g in d.groups ==> id !in d.groups[g].groupIds)
            && (forall m :: m in d.mappings ==> id !in d.mappings[m].groupIds && d.mappings[m].activeGroup != id)
  {
    var d := GroupDelete(db, id).0;
    forall c | c in d.nodes && d.nodes[c].isChain
      ensures GroupMember(id) !in d.nodes[c].members
    {
      assert LeadsTo(GraphOf(db.groups), id, {id});
    }
    forall g | g in d.groups
      ensures id !in d.groups[g].groupIds
    {
      DropContents(db.groups[g].groupIds, {id});
    }
    forall m | m in d.mappings
      ensures id !in d.mappings[m].groupIds && d.mappings[m].activeGroup != id
    {
      DropContents(db.mappings[m].groupIds, {id});
      var left := Drop(db.mappings[m].groupIds, {id});
      assert left != [] ==> left[0] in left;
    }
  }

  // ---------------------------------------------------------------- chains inside chains

  /** No chain lists another chain among its own nodes. */
  predicate NoChainInChain(db: Db) {
    forall c, x :: c in db.nodes && db.nodes[c].isChain && NodeMember(x) in db.nodes[c].members && x in db.nodes ==>
                     !db.nodes[x].isChain
  }

  /** An accepted update replaces the row and nothing else in the node table. */
  lemma UpdatedRow(db: Db, id: Id, req: NodeRequest)
    requires id != "" && NodeUpdate(db, id, req).1 == Accepted
    ensures NodeUpdate(db, id, req).0.nodes == db.nodes[id := RowOf(req, Unique(req.groupIds))]
  {
    var next := Unique(req.groupIds);
    UniqueContents(req.groupIds);
    var prev := GroupsHolding(db, id, db.nodes[id].groupId);
    DropContents(next, prev);
    AddToAllChanges(RemoveFromAll(db, id, prev - SetOf(next)), id, Drop(next, prev));
  }

  /** An accepted chain lists only plain nodes that exist. */
  lemma AcceptedChainIsFlat(db: Db, id: Id, req: NodeRequest, prev: set<Id>, next: seq<Id>)
    requires NodeChecks(db, id, req, prev, next) == Accepted && req.isChain
    ensures forall x :: NodeMember(x) in RowOf(req, next).members ==> x != id && x in db.nodes && !db.nodes[x].isChain
  {
    MembersOf(RowOf(req, next).members);
  }

  /** NodeUpdate never asks who lists the node: an accepted update keeps chains free of chains exactly
      when it does not turn a node some other chain lists into a chain. */
  lemma UpdateKeepsChainsFlatIff(db: Db, id: Id, req: NodeRequest)
    requires id != "" && NoChainInChain(db) && NodeUpdate(db, id, req).1 == Accepted
    requires forall c :: c in db.nodes && !db.nodes[c].isChain ==> db.nodes[c].members == []
    ensures NoChainInChain(NodeUpdate(db, id, req).0) <==> !(req.isChain && MentionedByChain(db, {id}))
  {
    var d := NodeUpdate(db, id, req).0;
    var next := Unique(req.groupIds);
    var row := RowOf(req, next);
    UpdatedRow(db, id, req);
    assert MentionedByChain(db, {id}) <==>
             exists c :: c in db.nodes && c != id && NodeMember(id) in db.nodes[c].members by {
      assert id in {id};
    }
    if req.isChain {
      AcceptedChainIsFlat(db, id, req, GroupsHolding(db, id, db.nodes[id].groupId), next);
    }
    FlatAfterRowIff(db, d, id, row);
  }

  lemma FlatAfterRowIff(db: Db, d: Db, id: Id, row: NodeRow)
    requires NoChainInChain(db) && d.nodes == db.nodes[id := row] && id in db.nodes
    requires forall c :: c in db.nodes && !db.nodes[c].isChain ==> db.nodes[c].members == []
    requires row.isChain ==>
               forall x :: NodeMember(x) in row.members ==> x != id && x in db.nodes && !db.nodes[x].isChain
    ensures NoChainInChain(d) <==>
            !(row.isChain && exists c :: c in db.nodes && c != id && NodeMember(id) in db.nodes[c].members)
  {
    if row.isChain && exists c :: c in db.nodes && c != id && NodeMember(id) in db.nodes[c].members {
      var c :| c in db.nodes && c != id && NodeMember(id) in db.nodes[c].members;
      assert c in d.nodes && d.nodes[c].isChain && d.nodes[id].isChain;
    }
  }

  lemma TwoNodes(a: Id, b: Id)
    requires a != "" && b != "" && a != b
    ensures var m := [NodeMember(a), NodeMember(b)];
            NormalMembers(m) == m && NodeIdsOf(m) == [a, b] && GroupIdsOf(m) == []
  {
    var m := [NodeMember(a), NodeMember(b)];
    assert m[..1] == [NodeMember(a)] && m[..1][..0] == [];
    assert NormalMembers(m[..1]) == [NodeMember(a)];
    assert m[1..] == [NodeMember(b)] && m[1..][1..] == [];
    assert NodeIdsOf(m[1..]) == [b] && GroupIdsOf(m[1..]) == [];
  }

  /** Where there are no groups, turning a node into a chain of two other plain nodes is accepted. */
  lemma ChainOfTwoAccepted(db: Db, id: Id, a: Id, b: Id)
    requires db.groups == map[] && id in db.nodes && db.nodes[id].groupId == ""
    requires a != b && a != "" && b != "" && a != id && b != id
    requires a in db.nodes && b in db.nodes && !db.nodes[a].isChain && !db.nodes[b].isChain
    ensures NodeUpdate(db, id, NodeRequest(true, [NodeMember(a), NodeMember(b)], [])).1 == Accepted
  {
    var req := NodeRequest(true, [NodeMember(a), NodeMember(b)], []);
    TwoNodes(a, b);
    var row := RowOf(req, []);
    NoGroupsValid(PendingDb(db, id, row, {}, []));
    forall s, x | Reaches(GraphOf(db.groups), s, x)
      ensures false
    {
      ReachesKnown(GraphOf(db.groups), s, x);
    }
    assert NodeChecks(db, id, req, {}, []) == Accepted;
    assert Unique([]) == [] && Drop([], {}) == [] && GroupsHolding(db, id, "") == {};
  }

  /** A chain x over the plain nodes a and b. */
  function FlatTables(): Db {
    var plain := NodeRow(false, [], "");
    Db(map["a" := plain, "b" := plain, "c" := plain, "d" := plain,
           "x" := NodeRow(true, [NodeMember("a"), NodeMember("b")], "")], map[], map[])
  }

  lemma FlatTablesAreFlat()
    ensures Valid(FlatTables()) && Keyed(FlatTables()) && NoChainInChain(FlatTables())
            && MentionedByChain(FlatTables(), {"a"})
  {
    var db := FlatTables();
    NoGroupsValid(db);
    assert db.nodes["x"].members[0] == NodeMember("a");
    assert "x" !in {"a"} && "a" in {"a"};
  }

  /** Valid tables and an accepted update that put a chain inside a chain. */
  lemma ChainInChainHappens()
    ensures Valid(FlatTables()) && Keyed(FlatTables()) && NoChainInChain(FlatTables())
    ensures var (d, s) := NodeUpdate(FlatTables(), "a", NodeRequest(true, [NodeMember("c"), NodeMember("d")], []));
            s == Accepted && !NoChainInChain(d)
  {
    var db := FlatTables();
    FlatTablesAreFlat();
    ChainOfTwoAccepted(db, "a", "c", "d");
    UpdateKeepsChainsFlatIff(db, "a", NodeRequest(true, [NodeMember("c"), NodeMember("d")], []));
  }

  /** Without groups no chain can be unsafe. */
  lemma NoGroupsValid(db: Db)
    requires db.groups == map[]
    ensures Valid(db)
  {
    forall c | c in db.nodes && db.nodes[c].isChain
      ensures ChainSafe(db, GroupIdsOf(db.nodes[c].members))
    {
      forall s, x | Reaches(GraphOf(db.groups), s, x)
        ensures false
      {
        ReachesKnown(GraphOf(db.groups), s, x);
      }
    }
  }

  // ---------------------------------------------------------------- the groups asked for

  /** After an accepted update the node is in exactly the requested groups, unless a requested group
      held it only through the primary-group column and is no longer the first in the request. */
  lemma UpdateGivesRequestedGroupsIff(db: Db, id: Id, req: NodeRequest)
    requires Keyed(db) && NodeUpdate(db, id, req).1 == Accepted
    ensures var d, next := NodeUpdate(db, id, req).0, Unique(req.groupIds);
            (forall g :: g in db.groups ==> (Belongs(d, g, id) <==> g in next))
            <==> (forall g :: g in next && g == db.nodes[id].groupId && g != next[0] ==> id in db.groups[g].nodeIds)
  {
    UpdatedLists(db, id, req);
    UniqueContents(req.groupIds);
  }

  /** After an accepted update the node is on the list of every requested group, except one that held it only
      as primary group. */
  lemma UpdatedLists(db: Db, id: Id, req: NodeRequest)
    requires Keyed(db) && NodeUpdate(db, id, req).1 == Accepted
    ensures var d, next, prev :=
              NodeUpdate(db, id, req).0, Unique(req.groupIds), GroupsHolding(db, id, db.nodes[id].groupId);
            && d.nodes == db.nodes[id := RowOf(req, next)] && d.groups.Keys == db.groups.Keys
            && forall g :: g in db.groups ==>
                 (id in d.groups[g].nodeIds <==> g in next && (g !in prev || id in db.groups[g].nodeIds))
  {
    var next := Unique(req.groupIds);
    UniqueContents(req.groupIds);
    var prev := GroupsHolding(db, id, db.nodes[id].groupId);
    RemoveFromAllWeaker(db, id, prev - SetOf(next));
    DropContents(next, prev);
    AddToAllChanges(RemoveFromAll(db, id, prev - SetOf(next)), id, Drop(next, prev));
  }

  /** After an accepted group update the group holds exactly the requested nodes and no child group, unless a
      node that was not requested names it as primary group without being on its list. */
  lemma GroupUpdateGivesRequestedNodesIff(db: Db, id: Id, nodeIds: seq<Id>)
    requires Keyed(db) && GroupUpdate(db, id, nodeIds).1 == Accepted
    ensures var d, ids := GroupUpdate(db, id, nodeIds).0, Unique(nodeIds);
            && id in d.groups && d.groups[id].groupIds == []
            && ((forall n :: n in db.nodes ==> (Belongs(d, id, n) <==> n in ids))
                <==> (forall n :: n in db.nodes && n !in ids && db.nodes[n].groupId == id ==>
                        n in db.groups[id].nodeIds))
  {
    var ids := Unique(nodeIds);
    UniqueContents(nodeIds);
    var held := SetOf(db.groups[id].nodeIds);
    var cleared := ClearPrimary(WithMembers(db, id, ids, []), id, held - SetOf(ids));
    AddNodesEffect(cleared, id, ids);
    var d := GroupUpdate(db, id, nodeIds).0;
    assert d == AddNodesToGroup(cleared, id, ids).0;
    forall n | n in db.nodes
      ensures Belongs(d, id, n) <==> n in ids || (db.nodes[n].groupId == id && n !in held)
    {
      assert cleared.nodes[n].groupId == if n in held - SetOf(ids) && db.nodes[n].groupId == id then ""
                                         else db.nodes[n].groupId;
    }
  }

  /** Adding nodes lists them, and gives the group as primary to those that had none. */
  lemma AddNodesEffect(db: Db, g: Id, ids: seq<Id>)
    requires Keyed(db) && g in db.groups && AddNodesToGroup(db, g, ids).1 == Accepted
    ensures var d := AddNodesToGroup(db, g, ids).0;
            && d.nodes.Keys == db.nodes.Keys && g in d.groups && d.groups[g].groupIds == db.groups[g].groupIds
            && (forall n :: n in db.nodes ==> (n in d.groups[g].nodeIds <==> n in db.groups[g].nodeIds || n in ids))
            && (forall n :: n in db.nodes ==>
                  d.nodes[n].groupId == if n in ids && db.nodes[n].groupId == "" then g else db.nodes[n].groupId)
  {
    UniqueContents(ids);
    UniqueContents(Unique(ids));
    if Unique(ids) != [] {
      UniqueContents(db.groups[g].nodeIds + Unique(Unique(ids)));
    }
  }

  // ---------------------------------------------------------------- and do not get

  /** Node n names group g as its primary one without being on its list; group h is empty. */
  function ColumnOnly(): Db {
    Db(map["n" := NodeRow(false, [], "g")], map["g" := GroupRow(false, [], []), "h" := GroupRow(false, [], [])], map[])
  }

  lemma NoChainsValid(db: Db)
    requires forall n :: n in db.nodes ==> !db.nodes[n].isChain
    ensures Valid(db)
  {
  }

  lemma ListOfTwo(a: Id, b: Id)
    requires a != "" && b != "" && a != b
    ensures Unique([a, b]) == [a, b] && Unique([a]) == [a] && Drop([a, b], {b}) == [a]
  {
    UniqueOfNormal([a]);
    UniqueOfNormal([a, b]);
    assert [a, b][1..] == [b] && [b][1..] == [];
    assert Drop([], {b}) == [] && Drop([b], {b}) == [];
  }

  /** Asked to put n into h and g, an accepted update puts it into h alone. */
  lemma RequestedGroupLost()
    ensures var req := NodeRequest(false, [], ["h", "g"]);
            var (d, s) := NodeUpdate(ColumnOnly(), "n", req);
            Valid(ColumnOnly()) && s == Accepted && Belongs(d, "h", "n") && !Belongs(d, "g", "n")
  {
    var db, req := ColumnOnly(), NodeRequest(false, [], ["h", "g"]);
    ListOfTwo("h", "g");
    var next := ["h", "g"];
    var prev := GroupsHolding(db, "n", "g");
    assert prev == {"g"};
    assert NodeChecks(db, "n", req, prev, next) == Accepted;
    var removed := RemoveFromAll(db, "n", prev - SetOf(next));
    NoChainsValid(db);
    NoChainsValid(removed);
    var grown := WithMembers(removed, "h", ["n"], []);
    NoChainsValid(grown);
    assert removed.groups["h"].nodeIds == [];
    assert [] + Unique(["n"]) == ["n"] by {
      ListOfTwo("n", "g");
    }
    assert AddMembership(removed, "h", ["n"]) == (grown, Accepted);
    assert ["h"][1..] == [];
    assert AddToAll(grown, "n", []) == (grown, Accepted);
    assert AddToAll(removed, "n", ["h"]) == (grown, Accepted);
  }

  /** Asked for an empty group g, an accepted group update leaves n in it. */
  lemma UnrequestedNodeKept()
    ensures var (d, s) := GroupUpdate(ColumnOnly(), "g", []);
            s == Accepted && Belongs(d, "g", "n")
  {
    var db := ColumnOnly();
    NoChainsValid(WithMembers(db, "g", [], []));
    assert Unique([]) == [];
  }
}
