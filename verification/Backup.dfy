/** Settings backups (service/proxy/settings_backup.go:123-212, 258-493; service/proxy/dto.go:371-537): what an
    accepted backup guarantees, and what survives an export followed by an import. */
module Backup {
  import opened Wrappers
  import opened Ids
  import opened Text
  import opened ConfigModel
  import opened ConfigWrites
  import opened ConfigStore

  ghost predicate NormalList(ids: seq<Id>) {
    Distinct(ids) && "" !in ids && forall v :: v in ids ==> Trimmed(v)
  }

  lemma IdListIsNormal(values: seq<string>)
    ensures NormalList(IdList(values))
    ensures NormalList(values) ==> IdList(values) == values
  {
    TrimsTrim(values);
    UniqueContents(Trims(values));
    if NormalList(values) {
      UniqueOfNormal(values);
    }
  }

  // ---------------------------------------------------------------- rows and their transfer objects

  datatype Times = Times(created: int, updated: int)

  datatype Protocol = Chain | Plain(name: string) | Unsupported

  datatype MemberKind = NodeKind | GroupKind | OtherKind

  datatype MemberDto = MemberDto(kind: MemberKind, id: string)

  datatype Override = Inherit | LoadBalance | LeastLatency | AtRandom | Unknown

  /** text stands for the columns that are only trimmed. */
  datatype SubRow = SubRow(id: Id, name: string, url: string, groupId: Id, text: seq<string>, times: Times)
  datatype GroupRec = GroupRec(id: Id, name: string, subscriptionId: Id, nodeIds: seq<Id>, groupIds: seq<Id>,
                               exits: seq<string>,
                               text: seq<string>, times: Times)
  datatype NodeRec = NodeRec(id: Id, name: string, protocol: Protocol, server: string, port: nat, members: seq<Member>,
                             subscriptionId: Id, groupId: Id, text: seq<string>, times: Times)
  datatype MappingRec = MappingRec(id: Id, listen: string, port: nat, order: int, nodeIds: seq<Id>, activeNode: Id,
                                   groupIds: seq<Id>, activeGroup: Id,
                                   overrides: map<Id, Override>, text: seq<string>, times: Times)

  datatype Rows = Rows(subs: seq<SubRow>, groups: seq<GroupRec>, nodes: seq<NodeRec>, mappings: seq<MappingRec>)

  datatype SubDto = SubDto(id: string, name: string, url: string, groupId: string, text: seq<string>, times: Times)
  datatype GroupDto = GroupDto(id: string, name: string, subscriptionId: string, nodeIds: seq<string>,
                               groupIds: seq<string>,
                               exits: seq<string>, text: seq<string>, times: Times)
  datatype NodeDto = NodeDto(id: string, name: string, protocol: Protocol, server: string, port: nat,
                             members: seq<MemberDto>,
                             chainNodeIds: seq<string>, subscriptionId: string, groupId: string, groupIds: seq<string>,
                             text: seq<string>, times: Times)
  datatype MappingDto = MappingDto(id: string, listen: string, port: nat, order: int, nodeIds: seq<string>,
                                   activeNode: Option<string>,
                                   groupIds: seq<string>, activeGroup: Option<string>, overrides: map<string, Override>,
                                   text: seq<string>, times: Times)

  /** Any entry of a document may be missing. */
  datatype Document = Document(kind: string, version: int, subs: seq<Option<SubDto>>, groups: seq<Option<GroupDto>>,
                               nodes: seq<Option<NodeDto>>, mappings: seq<Option<MappingDto>>)

  /** When a document is read, how an IP address is parsed and printed again, and in which order the keys of a map
      are visited. */
  datatype Site = Site(now: int, ip: string -> Option<string>, visit: map<string, Override> -> seq<string>)

  const KIND := "proxyhub.proxy-settings"
  const VERSION := 1

  /** normalizeBackupTimestamps (settings_backup.go:507). */
  function Stamp(t: Times, now: int): Times {
    var created := if t.created == 0 then now else t.created;
    Times(created, if t.updated == 0 then created else t.updated)
  }

  // ---------------------------------------------------------------- transfer objects to rows

  function KnownKinds(ms: seq<MemberDto>): seq<Member> {
    if |ms| == 0 then []
    else
      (match ms[0].kind
       case NodeKind => [NodeMember(Trim(ms[0].id))]
       case GroupKind => [GroupMember(Trim(ms[0].id))]
       case OtherKind => [])
      + KnownKinds(ms[1..])
  }

  function AsNodeMembers(ids: seq<Id>): seq<Member> {
    seq(|ids|, i requires 0 <= i < |ids| => NodeMember(ids[i]))
  }

  function MembersOfDto(d: NodeDto): seq<Member> {
    var ms := NormalMembers(KnownKinds(d.members));
    if ms == [] then AsNodeMembers(IdList(d.chainNodeIds)) else ms
  }

  const UNSET := Times(0, 0)

  /** A missing entry becomes a row without identifier, which no check lets through. */
  function SubOf(o: Option<SubDto>, at: Site): SubRow {
    match o
    case None => SubRow("", "", "", "", [], Stamp(UNSET, at.now))
    case Some(d) => SubRow(Trim(d.id), Trim(d.name), Trim(d.url), Trim(d.groupId), Trims(d.text),
                           Stamp(d.times, at.now))
  }

  function GroupOf(o: Option<GroupDto>, at: Site): GroupRec {
    match o
    case None => GroupRec("", "", "", [], [], [], [], Stamp(UNSET, at.now))
    case Some(d) =>
      GroupRec(Trim(d.id), Trim(d.name), Trim(d.subscriptionId), IdList(d.nodeIds), IdList(d.groupIds), IdList(d.exits),
               Trims(d.text), Stamp(d.times, at.now))
  }

  function NodeOf(o: Option<NodeDto>, at: Site): NodeRec {
    match o
    case None => NodeRec("", "", Unsupported, "", 0, [], "", "", [], Stamp(UNSET, at.now))
    case Some(d) =>
      NodeRec(Trim(d.id), Trim(d.name), d.protocol, Trim(d.server), d.port, MembersOfDto(d), Trim(d.subscriptionId),
              Trim(d.groupId), Trims(d.text), Stamp(d.times, at.now))
  }

  /** Case folding, as far as the word localhost is concerned; the long s folds to s. */
  function Fold(s: string): string {
    seq(|s|, i requires 0 <= i < |s| =>
      if 'A' <= s[i] <= 'Z' then (s[i] as int + 32) as char else if s[i] == '\U{017F}' then 's' else s[i])
  }

  predicate Bracketed(s: string) {
    |s| >= 2 && s[0] == '[' && s[|s| - 1] == ']'
  }

  /** parseListenAddr (runtime_chain.go:649), then printed. */
  function Listen(value: string, ip: string -> Option<string>): Option<string> {
    var v := Trim(value);
    var w := if v == "" || Fold(v) == "localhost" then "127.0.0.1" else v;
    ip(if Bracketed(w) then w[1..|w| - 1] else w)
  }

  function ValueOf(o: Option<string>): string {
    if o.Some? then Trim(o.value) else ""
  }

  /** normalizeMappingGroupStrategyOverrides (service.go:1868): keys are trimmed, and a later one replaces an earlier
      one that trims to the same group. */
  function OverridesOf(overrides: map<string, Override>, keys: seq<string>): map<Id, Override> {
    if |keys| == 0 then map[]
    else
      var head, key := OverridesOf(overrides, keys[..|keys| - 1]), keys[|keys| - 1];
      if key !in overrides || Trim(key) == "" || overrides[key] == Inherit then head
      else head[Trim(key) := overrides[key]]
  }

  function MappingOf(o: Option<MappingDto>, at: Site): MappingRec {
    match o
    case None => MappingRec("", "", 0, 1, [], "", [], "", map[], [], Stamp(UNSET, at.now))
    case Some(d) =>
      MappingRec(Trim(d.id), match Listen(d.listen, at.ip) case None => "" case Some(a) => a, d.port,
                 if d.order == 0 then 1 else d.order, IdList(d.nodeIds), ValueOf(d.activeNode),
                 IdList(d.groupIds), ValueOf(d.activeGroup),
                 OverridesOf(d.overrides, at.visit(d.overrides)),
                 Trims(d.text), Stamp(d.times, at.now))
  }

  function RowsOf(b: Document, at: Site): Rows {
    Rows(seq(|b.subs|, i requires 0 <= i < |b.subs| => SubOf(b.subs[i], at)),
         seq(|b.groups|, i requires 0 <= i < |b.groups| => GroupOf(b.groups[i], at)),
         seq(|b.nodes|, i requires 0 <= i < |b.nodes| => NodeOf(b.nodes[i], at)),
         seq(|b.mappings|, i requires 0 <= i < |b.mappings| => MappingOf(b.mappings[i], at)))
  }

  // ---------------------------------------------------------------- integrity

  ghost function GroupIds(r: Rows): set<Id> {
    set i | 0 <= i < |r.groups| :: r.groups[i].id
  }

  ghost function NodeIds(r: Rows): set<Id> {
    set i | 0 <= i < |r.nodes| :: r.nodes[i].id
  }

  ghost function SubIds(r: Rows): set<Id> {
    set i | 0 <= i < |r.subs| :: r.subs[i].id
  }

  predicate SubFine(s: SubRow) {
    s.id != "" && s.name != "" && s.url != ""
  }

  predicate GroupFine(g: GroupRec, subs: set<Id>) {
    g.id != "" && g.name != "" && (g.subscriptionId != "" ==> g.subscriptionId in subs)
  }

  predicate NodeFine(n: NodeRec, subs: set<Id>, groups: set<Id>) {
    && n.id != "" && n.name != ""
    && (n.subscriptionId != "" ==> n.subscriptionId in subs)
    && (n.groupId != "" ==> n.groupId in groups)
    && n.protocol != Unsupported
    && (n.protocol != Chain ==> n.server != "" && n.port != 0)
    && (n.protocol == Chain ==> |n.members| >= 2)
  }

  predicate MappingFine(m: MappingRec, nodes: set<Id>, groups: set<Id>) {
    && m.id != "" && m.listen != "" && m.port != 0
    && (forall x :: x in m.nodeIds ==> x in nodes)
    && (m.activeNode != "" ==> m.activeNode in m.nodeIds)
    && (forall x :: x in m.groupIds ==> x in groups)
    && (m.activeGroup != "" ==> m.activeGroup in m.groupIds)
    && (forall g :: g in m.overrides ==> g in m.groupIds && m.overrides[g] != Unknown)
  }

  /** validateGroupReferences (settings_backup.go:478). */
  predicate GroupRefs(g: GroupRec, nodes: set<Id>, groups: set<Id>) {
    (forall x :: x in g.nodeIds ==> x in nodes) && (forall x :: x in g.groupIds ==> x != g.id && x in groups)
  }

  predicate IsPlain(nodes: map<Id, NodeRec>, x: Id) {
    x in nodes && nodes[x].protocol != Chain
  }

  /** validateNodeReferences (settings_backup.go:443). */
  predicate MemberRefs(n: NodeRec, nodes: map<Id, NodeRec>, groups: set<Id>) {
    n.protocol == Chain ==>
      forall m :: m in n.members ==>
        match m
        case NodeMember(x) => x != n.id && IsPlain(nodes, x)
        case GroupMember(x) => x in groups
  }

  /** Rows inserted one after the other; a row whose key is taken is skipped (OnConflict DoNothing). */
  function NodeTable(nodes: seq<NodeRec>): map<Id, NodeRec> {
    if |nodes| == 0 then map[]
    else
      var t, n := NodeTable(nodes[..|nodes| - 1]), nodes[|nodes| - 1];
      if n.id in t then t else t[n.id := n]
  }

  function GroupTable(groups: seq<GroupRec>): map<Id, GroupRec> {
    if |groups| == 0 then map[]
    else
      var t, g := GroupTable(groups[..|groups| - 1]), groups[|groups| - 1];
      if g.id in t then t else t[g.id := g]
  }

  function MappingTable(mappings: seq<MappingRec>): map<Id, MappingRec> {
    if |mappings| == 0 then map[]
    else
      var t, m := MappingTable(mappings[..|mappings| - 1]), mappings[|mappings| - 1];
      if m.id in t || (exists x | x in t :: t[x].port == m.port) then t else t[m.id := m]
  }

  function NodeRowOf(n: NodeRec): NodeRow {
    NodeRow(n.protocol == Chain, n.members, n.groupId)
  }

  function GroupRowOf(g: GroupRec): GroupRow {
    GroupRow(g.subscriptionId != "", g.nodeIds, g.groupIds)
  }

  /** The node and group tables a restore leaves behind, as the chain-group invariant sees them. */
  function DbOf(r: Rows): Db {
    var nodes, groups := NodeTable(r.nodes), GroupTable(r.groups);
    Db(map x | x in nodes :: NodeRowOf(nodes[x]), map x | x in groups :: GroupRowOf(groups[x]), map[])
  }

  ghost predicate DistinctIds(r: Rows) {
    && (forall i, j :: 0 <= i < j < |r.subs| ==> r.subs[i].id != r.subs[j].id)
    && (forall i, j :: 0 <= i < j < |r.groups| ==> r.groups[i].id != r.groups[j].id)
    && (forall i, j :: 0 <= i < j < |r.nodes| ==> r.nodes[i].id != r.nodes[j].id)
    && (forall i, j :: 0 <= i < j < |r.mappings| ==> r.mappings[i].port != r.mappings[j].port)
  }

  /** Unique identifiers and listen ports, no dangling reference, a valid chain-group graph. */
  ghost predicate Integrity(r: Rows) {
    && DistinctIds(r)
    && (forall i :: 0 <= i < |r.subs| ==>
          SubFine(r.subs[i]) && (r.subs[i].groupId != "" ==> r.subs[i].groupId in GroupIds(r)))
    && (forall i :: 0 <= i < |r.groups| ==>
          GroupFine(r.groups[i], SubIds(r)) && GroupRefs(r.groups[i], NodeIds(r), GroupIds(r)))
    && (forall i :: 0 <= i < |r.nodes| ==>
          NodeFine(r.nodes[i], SubIds(r), GroupIds(r)) && MemberRefs(r.nodes[i], NodeTable(r.nodes), GroupIds(r)))
    && (forall i :: 0 <= i < |r.mappings| ==> MappingFine(r.mappings[i], NodeIds(r), GroupIds(r)))
    && Valid(DbOf(r))
  }

  /** What a document must satisfy beyond its rows: the header, the group list of each node, and the
      strategy overrides that do not become part of a row. */
  ghost predicate Wrapping(b: Document, at: Site) {
    var r := RowsOf(b, at);
    && b.kind == KIND && b.version == VERSION
    && (forall i :: 0 <= i < |b.nodes| ==> GroupListKnown(b.nodes[i], GroupIds(r)))
    && (forall i :: 0 <= i < |b.mappings| ==> OverridesKnown(b.mappings[i]))
  }

  predicate OverridesKnown(o: Option<MappingDto>) {
    o.Some? ==>
      forall key :: key in o.value.overrides && Trim(key) != "" ==>
        Trim(key) in IdList(o.value.groupIds) && o.value.overrides[key] != Unknown
  }

  // ---------------------------------------------------------------- validation

  /** One reading loop: an entry that is not accepted, or whose key was met before, ends it. */
  method ReadAll<D, R(0), K(==)>(dtos: seq<D>, convert: D -> R, accept: (R, D) -> bool, key: R -> K)
    returns (ok: bool, rows: seq<R>, keys: set<K>)
    ensures ok ==> |rows| == |dtos| && forall i :: 0 <= i < |dtos| ==> rows[i] == convert(dtos[i])
    ensures ok ==> keys == set i | 0 <= i < |rows| :: key(rows[i])
    ensures ok <==> (forall i :: 0 <= i < |dtos| ==> accept(convert(dtos[i]), dtos[i]))
                    && (forall i, j :: 0 <= i < j < |dtos| ==> key(convert(dtos[i])) != key(convert(dtos[j])))
  {
    rows, keys := [], {};
    for i := 0 to |dtos|
      invariant |rows| == i && forall k :: 0 <= k < i ==> rows[k] == convert(dtos[k])
      invariant keys == set k | 0 <= k < i :: key(rows[k])
      invariant forall k :: 0 <= k < i ==> accept(convert(dtos[k]), dtos[k])
      invariant forall k, j :: 0 <= k < j < i ==> key(convert(dtos[k])) != key(convert(dtos[j]))
    {
      var row := convert(dtos[i]);
      if !accept(row, dtos[i]) || key(row) in keys {
        return false, rows, keys;
      }
      rows, keys := rows + [row], keys + {key(row)};
    }
    return true, rows, keys;
  }

  /** The subscription loop; all is what the transfer objects convert to. */
  method ReadSubs(dtos: seq<Option<SubDto>>, at: Site, ghost all: seq<SubRow>)
    returns (ok: bool, rows: seq<SubRow>, ids: set<Id>)
    requires |all| == |dtos|
    requires forall i {:trigger SubOf(dtos[i], at)} :: 0 <= i < |dtos| ==> all[i] == SubOf(dtos[i], at)
    ensures ok ==> rows == all && ids == set k | 0 <= k < |all| :: all[k].id
    ensures ok <==> (forall i :: 0 <= i < |all| ==> SubFine(all[i]))
                    && (forall i, j :: 0 <= i < j < |all| ==> all[i].id != all[j].id)
  {
    ok, rows, ids := ReadAll(dtos, (d: Option<SubDto>) => SubOf(d, at), (r: SubRow, d: Option<SubDto>) => SubFine(r),
                             (r: SubRow) => r.id);
  }

  /** The group loop. */
  method ReadGroups(dtos: seq<Option<GroupDto>>, subs: set<Id>, at: Site, ghost all: seq<GroupRec>)
    returns (ok: bool, rows: seq<GroupRec>, ids: set<Id>)
    requires |all| == |dtos|
    requires forall i {:trigger GroupOf(dtos[i], at)} :: 0 <= i < |dtos| ==> all[i] == GroupOf(dtos[i], at)
    ensures ok ==> rows == all && ids == set k | 0 <= k < |all| :: all[k].id
    ensures ok <==> (forall i :: 0 <= i < |all| ==> GroupFine(all[i], subs))
                    && (forall i, j :: 0 <= i < j < |all| ==> all[i].id != all[j].id)
  {
    ok, rows, ids := ReadAll(dtos, (d: Option<GroupDto>) => GroupOf(d, at),
                             (r: GroupRec, d: Option<GroupDto>) => GroupFine(r, subs), (r: GroupRec) => r.id);
  }

  predicate GroupListKnown(o: Option<NodeDto>, groups: set<Id>) {
    o.Some? ==> forall g :: g in IdList(o.value.groupIds) ==> g in groups
  }

  predicate NodeAccepted(row: NodeRec, d: Option<NodeDto>, subs: set<Id>, groups: set<Id>) {
    NodeFine(row, subs, groups) && GroupListKnown(d, groups)
  }

  /** The node loop; all is what the transfer objects convert to. */
  method ReadNodes(dtos: seq<Option<NodeDto>>, subs: set<Id>, groups: set<Id>, at: Site, ghost all: seq<NodeRec>)
    returns (ok: bool, rows: seq<NodeRec>, ids: set<Id>)
    requires |all| == |dtos|
    requires forall i {:trigger NodeOf(dtos[i], at)} :: 0 <= i < |dtos| ==> all[i] == NodeOf(dtos[i], at)
    ensures ok ==> rows == all && ids == set k | 0 <= k < |all| :: all[k].id
    ensures ok <==> (forall i :: 0 <= i < |all| ==> NodeAccepted(all[i], dtos[i], subs, groups))
                    && (forall i, j :: 0 <= i < j < |all| ==> all[i].id != all[j].id)
  {
    ok, rows, ids := ReadAll(dtos, (d: Option<NodeDto>) => NodeOf(d, at),
                             (r: NodeRec, d: Option<NodeDto>) => NodeAccepted(r, d, subs, groups),
                             (r: NodeRec) => r.id);
  }

  lemma NodeTableGrows(nodes: seq<NodeRec>, row: NodeRec)
    ensures NodeTable(nodes + [row]) == if row.id in NodeTable(nodes) then NodeTable(nodes)
                                        else NodeTable(nodes)[row.id := row]
  {
    assert (nodes + [row])[..|nodes|] == nodes;
  }

  /** The index that the reference checks read. */
  method IndexNodes(rows: seq<NodeRec>) returns (byId: map<Id, NodeRec>)
    ensures byId == NodeTable(rows)
  {
    byId := map[];
    for i := 0 to |rows|
      invariant byId == NodeTable(rows[..i])
    {
      NodeTableGrows(rows[..i], rows[i]);
      assert rows[..i + 1] == rows[..i] + [rows[i]];
      if rows[i].id !in byId {
        byId := byId[rows[i].id := rows[i]];
      }
    }
    assert rows[..|rows|] == rows;
  }

  predicate MappingAccepted(row: MappingRec, d: Option<MappingDto>, nodes: set<Id>, groups: set<Id>) {
    OverridesKnown(d) && MappingFine(row, nodes, groups)
  }

  /** The mapping loop: listen ports are checked for repeats, identifiers are not. */
  method ReadMappings(dtos: seq<Option<MappingDto>>, nodes: set<Id>, groups: set<Id>, at: Site,
                      ghost all: seq<MappingRec>)
    returns (ok: bool, rows: seq<MappingRec>)
    requires |all| == |dtos|
    requires forall i {:trigger MappingOf(dtos[i], at)} :: 0 <= i < |dtos| ==> all[i] == MappingOf(dtos[i], at)
    ensures ok ==> rows == all
    ensures ok <==> (forall i :: 0 <= i < |all| ==> MappingAccepted(all[i], dtos[i], nodes, groups))
                    && (forall i, j :: 0 <= i < j < |all| ==> all[i].port != all[j].port)
  {
    var ports;
    ok, rows, ports := ReadAll(dtos, (d: Option<MappingDto>) => MappingOf(d, at),
                               (r: MappingRec, d: Option<MappingDto>) => MappingAccepted(r, d, nodes, groups),
                               (r: MappingRec) => r.port);
  }

  /** The three reference loops at the end. */
  method CheckReferences(r: Rows, nodeIds: set<Id>, groupIds: set<Id>, byId: map<Id, NodeRec>) returns (ok: bool)
    ensures ok <==> (forall i :: 0 <= i < |r.nodes| ==> MemberRefs(r.nodes[i], byId, groupIds))
                    && (forall i :: 0 <= i < |r.groups| ==> GroupRefs(r.groups[i], nodeIds, groupIds))
                    && (forall i :: 0 <= i < |r.subs| ==> r.subs[i].groupId != "" ==> r.subs[i].groupId in groupIds)
  {
    for i := 0 to |r.nodes|
      invariant forall k :: 0 <= k < i ==> MemberRefs(r.nodes[k], byId, groupIds)
    {
      if !MemberRefs(r.nodes[i], byId, groupIds) {
        return false;
      }
    }
    for i := 0 to |r.groups|
      invariant forall k :: 0 <= k < i ==> GroupRefs(r.groups[k], nodeIds, groupIds)
    {
      if !GroupRefs(r.groups[i], nodeIds, groupIds) {
        return false;
      }
    }
    for i := 0 to |r.subs|
      invariant forall k :: 0 <= k < i ==> r.subs[k].groupId != "" ==> r.subs[k].groupId in groupIds
    {
      if r.subs[i].groupId != "" && r.subs[i].groupId !in groupIds {
        return false;
      }
    }
    return true;
  }

  lemma {:induction false} NodeTableKeys(nodes: seq<NodeRec>)
    ensures forall x :: x in NodeTable(nodes) <==> exists i :: 0 <= i < |nodes| && nodes[i].id == x
    ensures forall x :: x in NodeTable(nodes) ==> NodeTable(nodes)[x] in nodes && NodeTable(nodes)[x].id == x
  {
    if |nodes| > 0 {
      var init := nodes[..|nodes| - 1];
      NodeTableKeys(init);
      assert nodes == init + [nodes[|nodes| - 1]];
      forall x
        ensures x in NodeTable(nodes) <==> exists i :: 0 <= i < |nodes| && nodes[i].id == x
      {
        if x in NodeTable(init) {
          var i :| 0 <= i < |init| && init[i].id == x;
          assert nodes[i].id == x;
        }
        if i :| 0 <= i < |nodes| && nodes[i].id == x {
          if i < |init| {
            assert init[i].id == x;
          }
        }
      }
    }
  }

  lemma {:induction false} GroupTableKeys(groups: seq<GroupRec>)
    ensures forall x :: x in GroupTable(groups) <==> exists i :: 0 <= i < |groups| && groups[i].id == x
    ensures forall x :: x in GroupTable(groups) ==> GroupTable(groups)[x] in groups && GroupTable(groups)[x].id == x
  {
    if |groups| > 0 {
      var init := groups[..|groups| - 1];
      GroupTableKeys(init);
      assert groups == init + [groups[|groups| - 1]];
      forall x
        ensures x in GroupTable(groups) <==> exists i :: 0 <= i < |groups| && groups[i].id == x
      {
        if x in GroupTable(init) {
          var i :| 0 <= i < |init| && init[i].id == x;
          assert groups[i].id == x;
        }
        if i :| 0 <= i < |groups| && groups[i].id == x {
          if i < |init| {
            assert init[i].id == x;
          }
        }
      }
    }
  }

  /** The row conditions the four reading loops establish. */
  ghost predicate RowsRead(r: Rows) {
    && DistinctIds(r)
    && (forall i :: 0 <= i < |r.subs| ==> SubFine(r.subs[i]))
    && (forall i :: 0 <= i < |r.groups| ==> GroupFine(r.groups[i], SubIds(r)))
    && (forall i :: 0 <= i < |r.nodes| ==> NodeFine(r.nodes[i], SubIds(r), GroupIds(r)))
    && (forall i :: 0 <= i < |r.mappings| ==> MappingFine(r.mappings[i], NodeIds(r), GroupIds(r)))
  }

  /** The loops refuse a document exactly when its wrapping or its rows are not as they should be. */
  lemma LoopsDecide(b: Document, at: Site)
    ensures var r := RowsOf(b, at);
            Wrapping(b, at) && RowsRead(r) <==>
              && b.kind == KIND && b.version == VERSION && DistinctIds(r)
              && (forall i :: 0 <= i < |r.subs| ==> SubFine(r.subs[i]))
              && (forall i :: 0 <= i < |r.groups| ==> GroupFine(r.groups[i], SubIds(r)))
              && (forall i :: 0 <= i < |r.nodes| ==> NodeAccepted(r.nodes[i], b.nodes[i], SubIds(r), GroupIds(r)))
              && (forall i :: 0 <= i < |r.mappings| ==>
                    MappingAccepted(r.mappings[i], b.mappings[i], NodeIds(r), GroupIds(r)))
  {
    var r := RowsOf(b, at);
    if forall i :: 0 <= i < |r.nodes| ==> NodeAccepted(r.nodes[i], b.nodes[i], SubIds(r), GroupIds(r)) {
      assert forall i :: 0 <= i < |b.nodes| ==> NodeAccepted(r.nodes[i], b.nodes[i], SubIds(r), GroupIds(r));
    }
    if forall i :: 0 <= i < |r.mappings| ==> MappingAccepted(r.mappings[i], b.mappings[i], NodeIds(r), GroupIds(r)) {
      assert forall i :: 0 <= i < |b.mappings| ==>
               MappingAccepted(r.mappings[i], b.mappings[i], NodeIds(r), GroupIds(r));
    }
  }

  method ReadRows(b: Document, at: Site) returns (result: Option<Rows>)
    ensures result.Some? <==> Wrapping(b, at) && RowsRead(RowsOf(b, at))
    ensures result.Some? ==> result.value == RowsOf(b, at)
  {
    ghost var r := RowsOf(b, at);
    LoopsDecide(b, at);
    if b.kind != KIND || b.version != VERSION {
      return None;
    }
    var ok, subs, subIds := ReadSubs(b.subs, at, r.subs);
    if !ok {
      return None;
    }
    var groups, groupIds;
    ok, groups, groupIds := ReadGroups(b.groups, subIds, at, r.groups);
    if !ok {
      return None;
    }
    var nodes, nodeIds;
    ok, nodes, nodeIds := ReadNodes(b.nodes, subIds, groupIds, at, r.nodes);
    if !ok {
      return None;
    }
    var mappings;
    ok, mappings := ReadMappings(b.mappings, nodeIds, groupIds, at, r.mappings);
    if !ok {
      return None;
    }
    return Some(Rows(subs, groups, nodes, mappings));
  }

  lemma TablesKeyed(r: Rows)
    requires RowsRead(r)
    ensures Keyed(DbOf(r))
  {
    NodeTableKeys(r.nodes);
    GroupTableKeys(r.groups);
  }

  /** What the reference loops check. */
  ghost predicate RefsHold(r: Rows) {
    && (forall i :: 0 <= i < |r.nodes| ==> MemberRefs(r.nodes[i], NodeTable(r.nodes), GroupIds(r)))
    && (forall i :: 0 <= i < |r.groups| ==> GroupRefs(r.groups[i], NodeIds(r), GroupIds(r)))
    && (forall i :: 0 <= i < |r.subs| ==> r.subs[i].groupId != "" ==> r.subs[i].groupId in GroupIds(r))
  }

  lemma IntegrityInParts(r: Rows)
    ensures Integrity(r) <==> RowsRead(r) && RefsHold(r) && Valid(DbOf(r))
  {
  }

  /** validateSettingsBackup (settings_backup.go:123): a document is accepted exactly when its rows have
      integrity, and then yields those rows. */
  method Validate(b: Document, at: Site) returns (result: Option<Rows>)
    ensures result.Some? <==> Wrapping(b, at) && Integrity(RowsOf(b, at))
    ensures result.Some? ==> result.value == RowsOf(b, at)
  {
    result := ReadRows(b, at);
    IntegrityInParts(RowsOf(b, at));
    if result == None {
      return;
    }
    var r := result.value;
    var nodeIds, groupIds := set n | n in r.nodes :: n.id, set g | g in r.groups :: g.id;
    assert nodeIds == NodeIds(r) && groupIds == GroupIds(r);
    var byId := IndexNodes(r.nodes);
    var ok := CheckReferences(r, nodeIds, groupIds, byId);
    assert ok <==> RefsHold(r);
    if !ok {
      return None;
    }
    TablesKeyed(r);
    var invalid := ChainMemberGroupsInvalid(DbOf(r));
    if invalid {
      return None;
    }
  }

  // ---------------------------------------------------------------- export

  function DtoMemberOf(m: Member): MemberDto {
    match m
    case NodeMember(x) => MemberDto(NodeKind, x)
    case GroupMember(x) => MemberDto(GroupKind, x)
  }

  function DtoMembers(ms: seq<Member>): seq<MemberDto> {
    seq(|ms|, i requires 0 <= i < |ms| => DtoMemberOf(ms[i]))
  }

  function Holding(n: Id, groups: seq<GroupRec>): seq<Id> {
    if |groups| == 0 then [] else (if n in groups[0].nodeIds then [groups[0].id] else []) + Holding(n, groups[1..])
  }

  function OrNil(s: string): Option<string> {
    if s == "" then None else Some(s)
  }

  function SubDtoOf(s: SubRow): SubDto {
    SubDto(s.id, s.name, s.url, s.groupId, s.text, s.times)
  }

  function GroupDtoOf(g: GroupRec): GroupDto {
    GroupDto(g.id, g.name, g.subscriptionId, g.nodeIds, g.groupIds, g.exits, g.text, g.times)
  }

  function NodeDtoOf(n: NodeRec, groups: seq<GroupRec>): NodeDto {
    NodeDto(n.id, n.name, n.protocol, n.server, n.port, DtoMembers(n.members), NodeIdsOf(n.members), n.subscriptionId,
            n.groupId,
            Unique((if n.groupId == "" then [] else [n.groupId]) + Holding(n.id, groups)), n.text, n.times)
  }

  function MappingDtoOf(m: MappingRec): MappingDto {
    MappingDto(m.id, m.listen, m.port, m.order, m.nodeIds, OrNil(m.activeNode), m.groupIds, OrNil(m.activeGroup),
               m.overrides, m.text, m.times)
  }

  /** SettingsExport (settings_backup.go:55) with the converters of dto.go. */
  function Export(r: Rows): Document {
    Document(KIND, VERSION,
             seq(|r.subs|, i requires 0 <= i < |r.subs| => Some(SubDtoOf(r.subs[i]))),
             seq(|r.groups|, i requires 0 <= i < |r.groups| => Some(GroupDtoOf(r.groups[i]))),
             seq(|r.nodes|, i requires 0 <= i < |r.nodes| => Some(NodeDtoOf(r.nodes[i], r.groups))),
             seq(|r.mappings|, i requires 0 <= i < |r.mappings| => Some(MappingDtoOf(r.mappings[i]))))
  }

  // ---------------------------------------------------------------- normal form

  ghost predicate NormalTexts(xs: seq<string>) {
    forall x :: x in xs ==> Trimmed(x)
  }

  ghost predicate NormalTimes(t: Times) {
    t.created != 0 && t.updated != 0
  }

  ghost predicate NormalSub(s: SubRow) {
    Trimmed(s.id) && Trimmed(s.name) && Trimmed(s.url) && Trimmed(s.groupId) && NormalTexts(s.text)
      && NormalTimes(s.times)
  }

  ghost predicate NormalGroup(g: GroupRec) {
    && Trimmed(g.id) && Trimmed(g.name) && Trimmed(g.subscriptionId) && NormalTexts(g.text) && NormalTimes(g.times)
    && NormalList(g.nodeIds) && NormalList(g.groupIds) && NormalList(g.exits)
  }

  ghost predicate NormalNode(n: NodeRec) {
    && Trimmed(n.id) && Trimmed(n.name) && Trimmed(n.server) && Trimmed(n.subscriptionId) && Trimmed(n.groupId)
    && NormalTexts(n.text) && NormalTimes(n.times)
    && NormalMembers(n.members) == n.members && forall m :: m in n.members ==> Trimmed(m.id)
  }

  ghost predicate NormalMapping(m: MappingRec, at: Site) {
    && Trimmed(m.id) && Listen(m.listen, at.ip) == Some(m.listen) && m.order != 0 && NormalList(m.nodeIds)
       && NormalList(m.groupIds)
    && Trimmed(m.activeNode) && Trimmed(m.activeGroup) && NormalTexts(m.text) && NormalTimes(m.times)
    && forall g :: g in m.overrides ==> Trimmed(g) && g != "" && m.overrides[g] != Inherit
  }

  /** Rows as the service itself stores them. */
  ghost predicate Normal(r: Rows, at: Site) {
    && (forall i :: 0 <= i < |r.subs| ==> NormalSub(r.subs[i]))
    && (forall i :: 0 <= i < |r.groups| ==> NormalGroup(r.groups[i]))
    && (forall i :: 0 <= i < |r.nodes| ==> NormalNode(r.nodes[i]))
    && (forall i :: 0 <= i < |r.mappings| ==> NormalMapping(r.mappings[i], at))
  }
}
