/** Every write to nodes and groups as a step of the tables, and the proof that each of them, accepted
    or stopped half way, keeps the chain-group invariant. */
module ConfigWrites {
  import opened Ids
  import opened GroupGraph
  import opened ConfigModel

  // ---------------------------------------------------------------- list helpers

  /** The values not in gone, order kept (slices.DeleteFunc). */
  function Drop(values: seq<Id>, gone: set<Id>): seq<Id> {
    if |values| == 0 then []
    else (if values[0] in gone then [] else [values[0]]) + Drop(values[1..], gone)
  }

  lemma {:induction false} DropContents(values: seq<Id>, gone: set<Id>)
    ensures forall v :: v in Drop(values, gone) <==> v in values && v !in gone
  {
    if |values| > 0 {
      DropContents(values[1..], gone);
      assert values == [values[0]] + values[1..];
    }
  }

  lemma {:induction false} MembersOf(members: seq<Member>)
    ensures forall x :: x in NodeIdsOf(members) <==> NodeMember(x) in members
    ensures forall x :: x in GroupIdsOf(members) <==> GroupMember(x) in members
  {
    if |members| > 0 {
      MembersOf(members[1..]);
      assert members == [members[0]] + members[1..];
    }
  }

  /** Row keys are never empty. */
  predicate Keyed(db: Db) {
    "" !in db.nodes && "" !in db.groups
  }

  /** The groups a node is in: its primary group and every group listing it (dto.go:757). */
  function GroupsHolding(db: Db, n: Id, primary: Id): set<Id> {
    (if primary == "" then {} else {primary}) + set g | g in db.groups && n in db.groups[g].nodeIds
  }

  predicate Unreferenced(db: Db, id: Id) {
    && id != "" && id !in db.nodes && id !in db.groups
    && (forall n :: n in db.nodes ==> NodeMember(id) !in db.nodes[n].members && GroupMember(id) !in db.nodes[n].members)
    && (forall n :: n in db.nodes ==> db.nodes[n].groupId != id)
    && (forall g :: g in db.groups ==> id !in db.groups[g].nodeIds && id !in db.groups[g].groupIds)
  }

  // ---------------------------------------------------------------- membership writes

  /** addNodesToGroupMembership (group_service.go:280): the child list is cut off for the check only. */
  ghost function AddMembership(db: Db, g: Id, ids: seq<Id>): (r: (Db, Status))
    ensures r.0.nodes.Keys == db.nodes.Keys && r.0.groups.Keys == db.groups.Keys
  {
    if g == "" || Unique(ids) == [] then (db, Accepted)
    else if g !in db.groups then (db, GroupNotFound)
    else
      var next := Unique(db.groups[g].nodeIds + Unique(ids));
      if !Valid(WithMembers(db, g, next, [])) then (db, InvalidChain)
      else (WithMembers(db, g, next, db.groups[g].groupIds), Accepted)
  }

  /** removeNodesFromGroupMembership (group_service.go:322). */
  function RemoveMembership(db: Db, g: Id, ids: seq<Id>): Db {
    if g !in db.groups then db
    else WithMembers(db, g, Drop(db.groups[g].nodeIds, SetOf(ids)), db.groups[g].groupIds)
  }

  /** Take a node out of several groups. */
  function RemoveFromAll(db: Db, n: Id, gs: set<Id>): Db {
    db.(groups := map g | g in db.groups ::
      if g in gs then db.groups[g].(nodeIds := Drop(db.groups[g].nodeIds, {n})) else db.groups[g])
  }

  /** The adding half of syncNodeGroupMembership: stops at the first refusal. */
  ghost function AddToAll(db: Db, n: Id, gs: seq<Id>): (r: (Db, Status))
    ensures r.0.nodes.Keys == db.nodes.Keys && r.0.groups.Keys == db.groups.Keys
    decreases |gs|
  {
    if gs == [] then (db, Accepted)
    else
      var (d, s) := AddMembership(db, gs[0], [n]);
      if s != Accepted then (d, s) else AddToAll(d, n, gs[1..])
  }

  lemma AddMembershipValid(db: Db, g: Id, ids: seq<Id>)
    requires Valid(db)
    ensures Valid(AddMembership(db, g, ids).0)
  {
    if g in db.groups {
      var next := Unique(db.groups[g].nodeIds + Unique(ids));
      if Valid(WithMembers(db, g, next, [])) {
        CutCheckSuffices(db, g, next);
      }
    }
  }

  /** What an added membership changes, and that nothing else moves. */
  lemma AddMembershipChanges(db: Db, g: Id, n: Id)
    requires n != ""
    ensures var (d, s) := AddMembership(db, g, [n]);
            && d.nodes == db.nodes && d.mappings == db.mappings && d.groups.Keys == db.groups.Keys
            && (forall x :: x in db.groups ==>
                  d.groups[x].groupIds == db.groups[x].groupIds
                    && d.groups[x].subscription == db.groups[x].subscription)
            && (forall x, y :: x in db.groups && y != "" ==>
                  (y in d.groups[x].nodeIds <==>
                     y in db.groups[x].nodeIds || (s == Accepted && x == g && g != "" && y == n)))
  {
    UniqueContents([n]);
    assert n in Unique([n]);
    if g in db.groups {
      UniqueContents(db.groups[g].nodeIds + Unique([n]));
    }
  }

  lemma {:induction false} AddToAllValid(db: Db, n: Id, gs: seq<Id>)
    requires Valid(db)
    ensures Valid(AddToAll(db, n, gs).0)
    decreases |gs|
  {
    if gs != [] {
      AddMembershipValid(db, gs[0], [n]);
      AddToAllValid(AddMembership(db, gs[0], [n]).0, n, gs[1..]);
    }
  }

  lemma {:induction false} AddToAllChanges(db: Db, n: Id, gs: seq<Id>)
    requires n != "" && "" !in gs
    ensures var (d, s) := AddToAll(db, n, gs);
            && d.nodes == db.nodes && d.mappings == db.mappings && d.groups.Keys == db.groups.Keys
            && (forall x :: x in db.groups ==>
                  d.groups[x].groupIds == db.groups[x].groupIds
                    && d.groups[x].subscription == db.groups[x].subscription)
            && (forall x, y :: x in db.groups && y != "" && y in d.groups[x].nodeIds ==>
                  y in db.groups[x].nodeIds || (x in gs && y == n))
            && (s == Accepted ==>
                  forall x, y ::
                    x in db.groups && y != "" && (y in db.groups[x].nodeIds || (x in gs && y == n)) ==>
                      y in d.groups[x].nodeIds)
    decreases |gs|
  {
    if gs != [] {
      AddMembershipChanges(db, gs[0], n);
      AddToAllChanges(AddMembership(db, gs[0], [n]).0, n, gs[1..]);
      assert gs == [gs[0]] + gs[1..];
    }
  }

  // ---------------------------------------------------------------- node writes

  /** The state ensurePendingNodeKeepsChainMemberGroupsValid examines (service.go:1327). */
  function PendingDb(db: Db, id: Id, row: NodeRow, prev: set<Id>, next: seq<Id>): Db {
    var named := prev + SetOf(next) - {""};
    var affected := if named == {} then GroupsHolding(db, id, row.groupId) else named;
    db.(nodes := db.nodes[id := row],
        groups := map g | g in db.groups ::
          if g in affected then
            db.groups[g].(nodeIds := Unique(Drop(db.groups[g].nodeIds, {id}) + (if g in next then [id] else [])))
          else db.groups[g])
  }

  /** normalizeNodeChainIDs (service.go:1246): id is empty when a plain node is being created. */
  ghost function NodeChecks(db: Db, id: Id, req: NodeRequest, prev: set<Id>, next: seq<Id>): Status {
    var row := RowOf(req, next);
    if !req.isChain then
      if id == "" || Valid(PendingDb(db, id, row, prev, next)) then Accepted else InvalidChain
    else if |row.members| < 2 || id in NodeIdsOf(row.members) then InvalidChain
    else if exists c :: c in NodeIdsOf(row.members) && (c !in db.nodes || (c != id && db.nodes[c].isChain)) then
      InvalidChain
    else if exists g :: g in GroupIdsOf(row.members) && g !in db.groups then InvalidChain
    else if CycleReachable(GraphOf(db.groups), GroupIdsOf(row.members)) then InvalidChain
    else if Valid(PendingDb(db, id, row, prev, next)) then Accepted else InvalidChain
  }

  /** The stored row: only a chain keeps members, and the primary group is the first requested. */
  function RowOf(req: NodeRequest, next: seq<Id>): NodeRow {
    NodeRow(req.isChain, if req.isChain then NormalMembers(req.members) else [], if next == [] then "" else next[0])
  }

  /** NodeCreate (service.go:21); id is the fresh identifier the row will get. */
  ghost function NodeCreate(db: Db, id: Id, req: NodeRequest): (Db, Status) {
    var next := Unique(req.groupIds);
    if exists g :: g in next && g !in db.groups then (db, GroupNotFound)
    else
      var s := NodeChecks(db, if req.isChain then id else "", req, {}, next);
      if s != Accepted then (db, s)
      else AddToAll(db.(nodes := db.nodes[id := RowOf(req, next)]), id, next)
  }

  /** NodeUpdate (service.go:68): memberships move first, the row last. */
  ghost function NodeUpdate(db: Db, id: Id, req: NodeRequest): (Db, Status) {
    if id !in db.nodes then (db, NodeNotFound)
    else
      var next := Unique(req.groupIds);
      if exists g :: g in next && g !in db.groups then (db, GroupNotFound)
      else
        var prev := GroupsHolding(db, id, db.nodes[id].groupId);
        var s := NodeChecks(db, id, req, prev, next);
        if s != Accepted then (db, s)
        else
          var removed := RemoveFromAll(db, id, prev - SetOf(next));
          var (d, st) := AddToAll(removed, id, Drop(next, prev));
          if st != Accepted then (d, st)
          else (d.(nodes := d.nodes[id := RowOf(req, next)]), Accepted)
  }

  predicate MentionedByChain(db: Db, ids: set<Id>) {
    exists c, x :: c in db.nodes && c !in ids && x in ids && NodeMember(x) in db.nodes[c].members
  }

  function MappingWithoutNodes(m: MappingRow, gone: set<Id>): MappingRow {
    var left := Drop(m.nodeIds, gone);
    m.(nodeIds := left,
       activeNode := if !m.manual then ""
                     else if m.activeNode in gone then (if left == [] then "" else left[0])
                     else m.activeNode)
  }

  /** nodeDeleteInTx and deleteSubscriptionNodesBulk: drop the nodes from every list, then the rows. */
  function WithoutNodes(db: Db, gone: set<Id>): Db {
    Db(map n | n in db.nodes && n !in gone :: db.nodes[n],
       map g | g in db.groups :: db.groups[g].(nodeIds := Drop(db.groups[g].nodeIds, gone)),
       map m | m in db.mappings :: MappingWithoutNodes(db.mappings[m], gone))
  }

  function NodeDelete(db: Db, id: Id): (Db, Status) {
    if id !in db.nodes then (db, NodeNotFound)
    else if MentionedByChain(db, {id}) then (db, InvalidChain)
    else (WithoutNodes(db, {id}), Accepted)
  }

  function NodesDeleteBulk(db: Db, ids: set<Id>): (Db, Status) {
    if MentionedByChain(db, ids) then (db, InvalidChain) else (WithoutNodes(db, ids), Accepted)
  }

  // ---------------------------------------------------------------- group writes

  /** addNodesToGroup (group_service.go:230): members first, then the primary group of the nodes that
      have none. */
  ghost function AddNodesToGroup(db: Db, g: Id, ids: seq<Id>): (Db, Status)
    requires g in db.groups
  {
    if Unique(ids) == [] then (db, Accepted)
    else if !Valid(WithMembers(db, g, Unique(ids), [])) then (db, InvalidChain)
    else
      var (d, s) := AddMembership(db, g, Unique(ids));
      if s != Accepted then (d, s)
      else (d.(nodes := map n | n in d.nodes ::
                 if n in ids && d.nodes[n].groupId == "" then d.nodes[n].(groupId := g) else d.nodes[n]), Accepted)
  }

  ghost function GroupCreate(db: Db, id: Id, nodeIds: seq<Id>): (Db, Status) {
    var ids := Unique(nodeIds);
    if exists n :: n in ids && n !in db.nodes then (db, NodeNotFound)
    else AddNodesToGroup(db.(groups := db.groups[id := GroupRow(false, ids, [])]), id, ids)
  }

  function ClearPrimary(db: Db, g: Id, ids: set<Id>): Db {
    db.(nodes := map n | n in db.nodes ::
      if n in ids && db.nodes[n].groupId == g then db.nodes[n].(groupId := "") else db.nodes[n])
  }

  ghost function GroupUpdate(db: Db, id: Id, nodeIds: seq<Id>): (Db, Status) {
    if id !in db.groups then (db, GroupNotFound)
    else if db.groups[id].subscription then (db, InvalidGroup)
    else
      var ids := Unique(nodeIds);
      if exists n :: n in ids && n !in db.nodes then (db, NodeNotFound)
      else if !Valid(WithMembers(db, id, ids, [])) then (db, InvalidChain)
      else
        var d := WithMembers(db, id, ids, []);
        AddNodesToGroup(ClearPrimary(d, id, SetOf(db.groups[id].nodeIds) - SetOf(ids)), id, ids)
  }

  ghost predicate GroupsUsedByChains(db: Db, ids: set<Id>) {
    exists c, g :: c in db.nodes && db.nodes[c].isChain && GroupMember(g) in db.nodes[c].members
                   && LeadsTo(GraphOf(db.groups), g, ids)
  }

  function MappingWithoutGroups(m: MappingRow, gone: set<Id>): MappingRow {
    var left := Drop(m.groupIds, gone);
    m.(groupIds := left,
       activeGroup := if !m.manual then ""
                      else if m.activeGroup in gone then (if left == [] then "" else left[0])
                      else m.activeGroup)
  }

  /** cleanupGroupReferences, then the rows themselves. */
  function WithoutGroups(db: Db, gone: set<Id>): Db {
    Db(db.nodes,
       map g | g in db.groups && g !in gone :: db.groups[g].(groupIds := Drop(db.groups[g].groupIds, gone)),
       map m | m in db.mappings :: MappingWithoutGroups(db.mappings[m], gone))
  }

  /** groupDeleteInTx (group_service.go:119). */
  ghost function GroupDelete(db: Db, id: Id): (Db, Status) {
    if id !in db.groups then (db, GroupNotFound)
    else if db.groups[id].subscription then (db, InvalidGroup)
    else if GroupsUsedByChains(db, {id}) then (db, InvalidChain)
    else (ClearPrimary(WithoutGroups(db, {id}), id, db.nodes.Keys), Accepted)
  }

  /** Deleting a subscription's groups keeps the primary-group column of their nodes. */
  ghost function GroupsDeleteBulk(db: Db, ids: set<Id>): (Db, Status) {
    if GroupsUsedByChains(db, ids) then (db, InvalidChain) else (WithoutGroups(db, ids), Accepted)
  }

  // ---------------------------------------------------------------- import, sync, restore

  /** upsertManualImportNode on an existing node: imported nodes are never chains. */
  ghost function ImportOverNode(db: Db, id: Id, group: Id): (Db, Status) {
    if id !in db.nodes then (db, NodeNotFound)
    else
      var prevGroup := db.nodes[id].groupId;
      var prev := if prevGroup == "" then {} else {prevGroup};
      var next := if group == "" then [] else [group];
      var s := NodeChecks(db, id, NodeRequest(false, [], next), prev, next);
      if s != Accepted then (db, s)
      else
        var d := if prevGroup != "" && prevGroup != group then RemoveMembership(db, prevGroup, [id]) else db;
        var (e, st) := AddMembership(d, group, [id]);
        if st != Accepted then (e, st)
        else (e.(nodes := e.nodes[id := NodeRow(false, [], group)]), Accepted)
  }

  /** upsertSubscriptionNodeRows: plain rows written without any check. */
  function UpsertPlainRows(db: Db, rows: map<Id, Id>): Db {
    db.(nodes := map n | n in db.nodes.Keys + rows.Keys ::
      if n in rows then NodeRow(false, [], rows[n]) else db.nodes[n])
  }

  /** The group writes of imports and syncs: the lists that are checked are the lists written. */
  ghost function SetMembers(db: Db, g: Id, nodeIds: seq<Id>, groupIds: seq<Id>): (Db, Status) {
    if g !in db.groups then (db, GroupNotFound)
    else
      var post := WithMembers(db, g, nodeIds, Drop(groupIds, {g}));
      if Valid(post) then (post, Accepted) else (db, InvalidChain)
  }

  /** appendManualImportToGroup: the group's own name is dropped for the check, not for the write. */
  ghost function AppendToGroup(db: Db, g: Id, nodeIds: seq<Id>, groupIds: seq<Id>): (Db, Status) {
    if g !in db.groups then (db, GroupNotFound)
    else
      var ns := Unique(db.groups[g].nodeIds + nodeIds);
      var gs := Unique(db.groups[g].groupIds + Drop(groupIds, {g}));
      if Valid(WithMembers(db, g, ns, Drop(gs, {g}))) then (WithMembers(db, g, ns, gs), Accepted)
      else (db, InvalidChain)
  }

  datatype Op =
    | CreateNode(id: Id, req: NodeRequest)
    | UpdateNode(id: Id, req: NodeRequest)
    | DeleteNode(id: Id)
    | CreateGroup(id: Id, nodeIds: seq<Id>)
    | UpdateGroup(id: Id, nodeIds: seq<Id>)
    | DeleteGroup(id: Id)
    | ImportNode(id: Id, group: Id)
    | ImportShell(id: Id, subscription: bool)
    | ImportMembers(id: Id, nodeIds: seq<Id>, groupIds: seq<Id>)
    | AppendImport(id: Id, nodeIds: seq<Id>, groupIds: seq<Id>)
    | LeaveGroup(id: Id, nodeIds: seq<Id>)
    | SyncRows(rows: map<Id, Id>)
    | SyncDeleteNodes(ids: set<Id>)
    | SyncDeleteGroups(ids: set<Id>)
    | Restore(backup: Db)

  /** Identifiers of created rows are fresh. */
  predicate Admissible(db: Db, op: Op) {
    match op
    case CreateNode(id, _) => Unreferenced(db, id)
    case CreateGroup(id, _) => Unreferenced(db, id)
    case ImportShell(id, _) => Unreferenced(db, id)
    case SyncRows(rows) => forall n :: n in rows && n !in db.nodes ==> Unreferenced(db, n)
    case Restore(backup) => Keyed(backup)
    case _ => true
  }

  ghost function Step(db: Db, op: Op): (Db, Status) {
    match op
    case CreateNode(id, req) => NodeCreate(db, id, req)
    case UpdateNode(id, req) => NodeUpdate(db, id, req)
    case DeleteNode(id) => NodeDelete(db, id)
    case CreateGroup(id, nodeIds) => GroupCreate(db, id, nodeIds)
    case UpdateGroup(id, nodeIds) => GroupUpdate(db, id, nodeIds)
    case DeleteGroup(id) => GroupDelete(db, id)
    case ImportNode(id, group) => ImportOverNode(db, id, group)
    case ImportShell(id, sub) => (db.(groups := db.groups[id := GroupRow(sub, [], [])]), Accepted)
    case ImportMembers(id, ns, gs) => SetMembers(db, id, ns, gs)
    case AppendImport(id, ns, gs) => AppendToGroup(db, id, ns, gs)
    case LeaveGroup(id, ns) => (RemoveMembership(db, id, ns), Accepted)
    case SyncRows(rows) => (UpsertPlainRows(db, rows), Accepted)
    case SyncDeleteNodes(ids) => NodesDeleteBulk(db, ids)
    case SyncDeleteGroups(ids) => GroupsDeleteBulk(db, ids)
    case Restore(backup) => if Valid(backup) then (backup, Accepted) else (db, InvalidChain)
  }

  ghost predicate AdmissibleRun(db: Db, ops: seq<Op>)
    decreases |ops|
  {
    ops == [] || (Admissible(db, ops[0]) && AdmissibleRun(Step(db, ops[0]).0, ops[1..]))
  }

  ghost function Run(db: Db, ops: seq<Op>): Db
    decreases |ops|
  {
    if ops == [] then db else Run(Step(db, ops[0]).0, ops[1..])
  }

  // ---------------------------------------------------------------- each write keeps the invariant

  lemma NodeCreateKeeps(db: Db, id: Id, req: NodeRequest)
    requires Valid(db) && Keyed(db) && Unreferenced(db, id)
    ensures Valid(NodeCreate(db, id, req).0)
  {
    var next := Unique(req.groupIds);
    UniqueContents(req.groupIds);
    var row := RowOf(req, next);
    var d := db.(nodes := db.nodes[id := row]);
    if NodeChecks(db, if req.isChain then id else "", req, {}, next) == Accepted {
      if req.isChain {
        PendingCovers(db, d, id, row, {}, next);
      } else {
        assert Weaker(d, db);
        WeakerStaysValid(d, db);
      }
      AddToAllValid(d, id, next);
    }
  }

  /** A state that changes only the pending node's memberships, each of them covered by the request,
      is no stronger than the state that was checked. */
  lemma PendingCovers(db: Db, d: Db, id: Id, row: NodeRow, prev: set<Id>, next: seq<Id>)
    requires Keyed(db) && id != "" && "" !in next
    requires Valid(PendingDb(db, id, row, prev, next))
    requires d.nodes == db.nodes[id := row] && d.groups.Keys == db.groups.Keys
    requires forall g :: g in d.groups ==> d.groups[g].groupIds == db.groups[g].groupIds
    requires forall g, n :: g in d.groups && n != "" && n != id && n in d.groups[g].nodeIds ==>
               n in db.groups[g].nodeIds
    requires forall g :: g in d.groups && id in d.groups[g].nodeIds ==> g in next
    ensures Valid(d)
  {
    var p := PendingDb(db, id, row, prev, next);
    forall g, n | Belongs(d, g, n) && d.nodes[n].isChain
      ensures Belongs(p, g, n)
    {
      UniqueContents(Drop(db.groups[g].nodeIds, {id}) + (if g in next then [id] else []));
      DropContents(db.groups[g].nodeIds, {id});
      if n in d.groups[g].nodeIds {
        assert n != "";
        if n == id {
          assert g in next && g in prev + SetOf(next) - {""};
        }
      }
    }
    WeakerStaysValid(d, p);
  }

  lemma RemoveFromAllWeaker(db: Db, id: Id, gs: set<Id>)
    ensures Weaker(RemoveFromAll(db, id, gs), db)
    ensures var d := RemoveFromAll(db, id, gs);
            forall g, n :: g in db.groups ==>
              (n in d.groups[g].nodeIds <==> n in db.groups[g].nodeIds && !(g in gs && n == id))
  {
    forall g | g in db.groups
      ensures forall n :: n in Drop(db.groups[g].nodeIds, {id}) <==> n in db.groups[g].nodeIds && n != id
    {
      DropContents(db.groups[g].nodeIds, {id});
    }
  }

  lemma NodeUpdateKeeps(db: Db, id: Id, req: NodeRequest)
    requires Valid(db) && Keyed(db)
    ensures Valid(NodeUpdate(db, id, req).0)
  {
    var next := Unique(req.groupIds);
    UniqueContents(req.groupIds);
    if id in db.nodes {
      var prev := GroupsHolding(db, id, db.nodes[id].groupId);
      if NodeChecks(db, id, req, prev, next) == Accepted {
        var removed := RemoveFromAll(db, id, prev - SetOf(next));
        var targets := Drop(next, prev);
        RemoveFromAllWeaker(db, id, prev - SetOf(next));
        WeakerStaysValid(removed, db);
        AddToAllValid(removed, id, targets);
        DropContents(next, prev);
        AddToAllChanges(removed, id, targets);
        var (d, st) := AddToAll(removed, id, targets);
        if st == Accepted {
          var row := RowOf(req, next);
          PendingCovers(db, d.(nodes := d.nodes[id := row]), id, row, prev, next);
        }
      }
    }
  }

  lemma WithoutNodesWeaker(db: Db, gone: set<Id>)
    ensures Weaker(WithoutNodes(db, gone), db)
    ensures forall g, n :: g in db.groups ==>
              (n in WithoutNodes(db, gone).groups[g].nodeIds <==> n in db.groups[g].nodeIds && n !in gone)
  {
    forall g | g in db.groups
      ensures forall n :: n in Drop(db.groups[g].nodeIds, gone) <==> n in db.groups[g].nodeIds && n !in gone
    {
      DropContents(db.groups[g].nodeIds, gone);
    }
  }

  lemma WithoutGroupsWeaker(db: Db, gone: set<Id>)
    ensures Weaker(WithoutGroups(db, gone), db)
  {
    forall g | g in db.groups
      ensures forall n :: n in Drop(db.groups[g].groupIds, gone) ==> n in db.groups[g].groupIds
    {
      DropContents(db.groups[g].groupIds, gone);
    }
  }

  lemma AddNodesToGroupKeeps(db: Db, g: Id, ids: seq<Id>)
    requires Valid(db) && Keyed(db) && g in db.groups
    ensures Valid(AddNodesToGroup(db, g, ids).0)
  {
    AddMembershipValid(db, g, Unique(ids));
    var d, e := AddMembership(db, g, Unique(ids)).0, AddNodesToGroup(db, g, ids).0;
    if Unique(ids) != [] && AddNodesToGroup(db, g, ids).1 == Accepted {
      UniqueContents(ids);
      UniqueContents(Unique(ids));
      UniqueContents(db.groups[g].nodeIds + Unique(Unique(ids)));
      PrimaryOfListedWeaker(d, e, g, ids);
      WeakerStaysValid(e, d);
    }
  }

  /** Naming a group as primary in nodes that it lists adds no membership. */
  lemma PrimaryOfListedWeaker(d: Db, e: Db, g: Id, ids: seq<Id>)
    requires Keyed(d) && g in d.groups && forall n :: n in ids && n != "" ==> n in d.groups[g].nodeIds
    requires e.groups == d.groups && e.nodes.Keys == d.nodes.Keys
    requires forall n :: n in d.nodes ==>
               e.nodes[n] == if n in ids && d.nodes[n].groupId == "" then d.nodes[n].(groupId := g) else d.nodes[n]
    ensures Weaker(e, d)
  {
    forall x, n | Belongs(e, x, n) && e.nodes[n].isChain
      ensures Belongs(d, x, n)
    {
    }
  }

  /** A group nobody refers to is invisible to every chain. */
  lemma FreshGroupKeeps(db: Db, id: Id, row: GroupRow)
    requires Valid(db) && Unreferenced(db, id) && id !in row.groupIds
    ensures Valid(db.(groups := db.groups[id := row]))
  {
    var d := db.(groups := db.groups[id := row]);
    var g, gd := GraphOf(db.groups), GraphOf(d.groups);
    forall c | c in d.nodes && d.nodes[c].isChain
      ensures ChainSafe(d, GroupIdsOf(d.nodes[c].members))
    {
      var seeds := GroupIdsOf(d.nodes[c].members);
      assert ChainSafe(db, seeds);
      MembersOf(d.nodes[c].members);
      assert id !in seeds;
      forall s, x | s != id && Reaches(gd, s, x)
        ensures Reaches(g, s, x)
      {
        var p :| PathFromTo(gd, p, s, x);
        forall i | 0 <= i < |p|
          ensures p[i] != id
        {
          if i > 0 {
            assert Edge(gd, p[i - 1], p[i]);
          }
        }
        forall i | 0 <= i < |p| - 1
          ensures Edge(g, p[i], p[i + 1])
        {
          assert Edge(gd, p[i], p[i + 1]);
        }
        assert PathFromTo(g, p, s, x);
      }
      forall x | ReachesAny(gd, seeds, x)
        ensures x != id && ReachesAny(g, seeds, x)
      {
        var s :| s in seeds && Reaches(gd, s, x);
        ReachesKnown(g, s, x);
      }
      if CycleReachable(gd, seeds) {
        var a :| ReachesAny(gd, seeds, a) && OnCycle(gd, a);
        var b :| Edge(gd, a, b) && Reaches(gd, b, a);
        assert b != id && Edge(g, a, b);
        assert false;
      }
      forall x, n | ReachesAny(gd, seeds, x) && Belongs(d, x, n)
        ensures !d.nodes[n].isChain
      {
        assert Belongs(db, x, n);
      }
    }
  }

  lemma GroupCreateKeeps(db: Db, id: Id, nodeIds: seq<Id>)
    requires Valid(db) && Keyed(db) && Unreferenced(db, id)
    ensures Valid(GroupCreate(db, id, nodeIds).0)
  {
    var ids := Unique(nodeIds);
    FreshGroupKeeps(db, id, GroupRow(false, ids, []));
    AddNodesToGroupKeeps(db.(groups := db.groups[id := GroupRow(false, ids, [])]), id, ids);
  }

  lemma GroupUpdateKeeps(db: Db, id: Id, nodeIds: seq<Id>)
    requires Valid(db) && Keyed(db)
    ensures Valid(GroupUpdate(db, id, nodeIds).0)
  {
    var ids := Unique(nodeIds);
    if id in db.groups && Valid(WithMembers(db, id, ids, [])) {
      var d := WithMembers(db, id, ids, []);
      var e := ClearPrimary(d, id, SetOf(db.groups[id].nodeIds) - SetOf(ids));
      assert Weaker(e, d);
      WeakerStaysValid(e, d);
      AddNodesToGroupKeeps(e, id, ids);
    }
  }

  lemma GroupDeleteKeeps(db: Db, id: Id)
    requires Valid(db) && Keyed(db)
    ensures Valid(GroupDelete(db, id).0)
  {
    var d := WithoutGroups(db, {id});
    WithoutGroupsWeaker(db, {id});
    WeakerStaysValid(d, db);
    var e := ClearPrimary(d, id, db.nodes.Keys);
    assert Weaker(e, d);
    WeakerStaysValid(e, d);
  }

  lemma PlainRowWeaker(db: Db, id: Id, group: Id)
    requires id in db.nodes
    ensures Weaker(db.(nodes := db.nodes[id := NodeRow(false, [], group)]), db)
  {
  }

  lemma RemoveMembershipWeaker(db: Db, g: Id, ids: seq<Id>)
    ensures Weaker(RemoveMembership(db, g, ids), db)
  {
    if g in db.groups {
      DropContents(db.groups[g].nodeIds, SetOf(ids));
    }
  }

  lemma LeavingKeeps(db: Db, g: Id, ids: seq<Id>)
    requires Valid(db)
    ensures Valid(RemoveMembership(db, g, ids))
  {
    RemoveMembershipWeaker(db, g, ids);
    WeakerStaysValid(RemoveMembership(db, g, ids), db);
  }

  lemma ImportOverNodeKeeps(db: Db, id: Id, group: Id)
    requires Valid(db) && Keyed(db)
    ensures Valid(ImportOverNode(db, id, group).0)
  {
    if id in db.nodes {
      var prev := db.nodes[id].groupId;
      var d := if prev != "" && prev != group then RemoveMembership(db, prev, [id]) else db;
      LeavingKeeps(db, prev, [id]);
      AddMembershipValid(d, group, [id]);
      var e := AddMembership(d, group, [id]).0;
      PlainRowWeaker(e, id, group);
      WeakerStaysValid(e.(nodes := e.nodes[id := NodeRow(false, [], group)]), e);
    }
  }

  lemma AppendToGroupKeeps(db: Db, g: Id, nodeIds: seq<Id>, groupIds: seq<Id>)
    requires Valid(db) && Keyed(db)
    ensures Valid(AppendToGroup(db, g, nodeIds, groupIds).0)
  {
    if g in db.groups {
      var ns := Unique(db.groups[g].nodeIds + nodeIds);
      var gs := Unique(db.groups[g].groupIds + Drop(groupIds, {g}));
      if Valid(WithMembers(db, g, ns, Drop(gs, {g}))) {
        DropContents(gs, {g});
        DropContents(groupIds, {g});
        UniqueContents(db.groups[g].groupIds + Drop(groupIds, {g}));
        SelfLinkCheckSuffices(db, g, ns, gs, Drop(gs, {g}));
      }
    }
  }

  lemma PlainRowsKeep(db: Db, rows: map<Id, Id>)
    requires Valid(db)
    ensures Valid(UpsertPlainRows(db, rows))
  {
    assert Weaker(UpsertPlainRows(db, rows), db);
    WeakerStaysValid(UpsertPlainRows(db, rows), db);
  }

  lemma CreatesKeepKeys(db: Db, op: Op)
    requires Keyed(db) && Admissible(db, op) && (op.CreateNode? || op.UpdateNode? || op.CreateGroup? || op.UpdateGroup?)
    ensures Keyed(Step(db, op).0)
  {
  }

  lemma StepKeys(db: Db, op: Op)
    requires Keyed(db) && Admissible(db, op)
    ensures Keyed(Step(db, op).0)
  {
    if op.CreateNode? || op.UpdateNode? || op.CreateGroup? || op.UpdateGroup? {
      CreatesKeepKeys(db, op);
    }
  }

  /** One write of any kind, accepted or refused part way, keeps every chain's groups safe. */
  lemma StepKeepsChainsSafe(db: Db, op: Op)
    requires Valid(db) && Keyed(db) && Admissible(db, op)
    ensures Valid(Step(db, op).0)
  {
    match op
    case CreateNode(id, req) => NodeCreateKeeps(db, id, req);
    case UpdateNode(id, req) => NodeUpdateKeeps(db, id, req);
    case DeleteNode(id) => WithoutNodesWeaker(db, {id}); WeakerStaysValid(WithoutNodes(db, {id}), db);
    case CreateGroup(id, nodeIds) => GroupCreateKeeps(db, id, nodeIds);
    case UpdateGroup(id, nodeIds) => GroupUpdateKeeps(db, id, nodeIds);
    case DeleteGroup(id) => GroupDeleteKeeps(db, id);
    case ImportNode(id, group) => ImportOverNodeKeeps(db, id, group);
    case ImportShell(id, sub) => FreshGroupKeeps(db, id, GroupRow(sub, [], []));
    case ImportMembers(id, ns, gs) =>
    case AppendImport(id, ns, gs) => AppendToGroupKeeps(db, id, ns, gs);
    case LeaveGroup(id, ns) => LeavingKeeps(db, id, ns);
    case SyncRows(rows) => PlainRowsKeep(db, rows);
    case SyncDeleteNodes(ids) => WithoutNodesWeaker(db, ids); WeakerStaysValid(WithoutNodes(db, ids), db);
    case SyncDeleteGroups(ids) => WithoutGroupsWeaker(db, ids); WeakerStaysValid(WithoutGroups(db, ids), db);
    case Restore(backup) =>
  }

  /** Over any run of writes the invariant holds at the end, whatever was accepted on the way. */
  lemma {:induction false} RunKeepsChainsSafe(db: Db, ops: seq<Op>)
    requires Valid(db) && Keyed(db) && AdmissibleRun(db, ops)
    ensures Valid(Run(db, ops)) && Keyed(Run(db, ops))
    decreases |ops|
  {
    if ops != [] {
      StepKeepsChainsSafe(db, ops[0]);
      StepKeys(db, ops[0]);
      RunKeepsChainsSafe(Step(db, ops[0]).0, ops[1..]);
    }
  }
}
