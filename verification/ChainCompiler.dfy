/** The compiler from a chain of nodes and groups to outbounds (service/proxy/runtime_chain.go), as
    functions of an explicit build state; ChainBuilder runs it in place. */
module ChainCompiler {
  import opened Wrappers
  import opened Ids
  import opened GroupGraph
  import opened ConfigModel
  import opened TagCodec
  import opened Outbounds

  /** Builtin members of a group. */
  datatype Exit = DirectExit | RejectExit

  /** The tables, the order in which the node query lists rows, the nodes whose options can be built
      and the builtin members of each group. */
  datatype Env = Env(db: Db, order: seq<Id>, buildable: set<Id>, exits: map<Id, seq<Exit>>)

  datatype Error = BadChain | CyclicGroup(group: Id) | NodeBuildError(node: Id) | RawBuildError(node: Id)

  /** outs is what has been emitted, tags every tag already taken. */
  datatype State = State(outs: seq<Outbound>, tags: set<Tag>)

  datatype Step = Built(st: State, tag: Tag, last: Option<Outbound>) | Failed(error: Error)

  datatype Steps = BuiltAll(st: State, tags: seq<Tag>) | FailedAll(error: Error)

  /** The terminal rewrite either declines or produces a step. */
  datatype Terminal = Declined | Handled(step: Step)

  // ---------------------------------------------------------------- queries

  /** Known identifiers only, order kept. */
  function Known(values: seq<Id>, known: set<Id>): seq<Id> {
    if |values| == 0 then []
    else (if values[0] in known then [values[0]] else []) + Known(values[1..], known)
  }

  function Grouped(env: Env, g: Id, rows: seq<Id>, listed: seq<Id>): seq<Id> {
    if |rows| == 0 then []
    else
      (if rows[0] in env.db.nodes && env.db.nodes[rows[0]].groupId == g && rows[0] !in listed then [rows[0]] else [])
      + Grouped(env, g, rows[1..], listed)
  }

  /** findNodesByGroupOrIDs (service/proxy/service.go:952): listed nodes first, in list order, then the
      other nodes whose primary group this is. */
  function GroupNodes(env: Env, g: Id): seq<Id> {
    if g !in env.db.groups then []
    else
      var listed := Known(Unique(env.db.groups[g].nodeIds), env.db.nodes.Keys);
      listed + Grouped(env, g, env.order, listed)
  }

  /** findGroupsByIDs on the child list. */
  function ChildGroups(env: Env, g: Id): seq<Id> {
    if g !in env.db.groups then [] else Known(Unique(env.db.groups[g].groupIds), env.db.groups.Keys)
  }

  function Exits(env: Env, g: Id): seq<Exit> {
    if g in env.exits then env.exits[g] else []
  }

  function ExitTags(exits: seq<Exit>): seq<Tag> {
    if |exits| == 0 then []
    else [if exits[0].DirectExit? then Direct else Block] + ExitTags(exits[1..])
  }

  function UniqueTags(tags: seq<Tag>): seq<Tag> {
    if |tags| == 0 then []
    else
      var head := UniqueTags(tags[..|tags| - 1]);
      var t := tags[|tags| - 1];
      if t in head then head else head + [t]
  }

  lemma {:induction false} UniqueTagsContents(tags: seq<Tag>)
    ensures forall t :: t in UniqueTags(tags) <==> t in tags
  {
    if |tags| > 0 {
      UniqueTagsContents(tags[..|tags| - 1]);
      assert tags == tags[..|tags| - 1] + [tags[|tags| - 1]];
    }
  }

  function MemberTags(tags: seq<Tag>): seq<Tag> {
    if UniqueTags(tags) == [] then [Block] else UniqueTags(tags)
  }

  // ---------------------------------------------------------------- building

  function Emit(st: State, o: Outbound): State {
    State(st.outs + [o], st.tags + {o.tag})
  }

  /** buildChainNodeMemberRuntimeOutbound (runtime_chain.go:272). */
  function BuildNode(env: Env, n: Id, tag: Tag, detour: Option<Tag>, st: State): Step {
    if tag in st.tags then Built(st, tag, None)
    else if n !in env.buildable then Failed(RawBuildError(n))
    else
      var o := NodeOut(tag, n, detour);
      Built(Emit(st, o), tag, Some(o))
  }

  predicate Plain(env: Env, n: Id) {
    n in env.db.nodes && !env.db.nodes[n].isChain
  }

  /** The node loop of a group member, from position k on. */
  function BuildGroupNodes(env: Env, c: Id, i: nat, nodes: seq<Id>, k: nat, detour: Option<Tag>, st: State): Steps
    decreases |nodes| - k
  {
    if k >= |nodes| then BuiltAll(st, [])
    else if !Plain(env, nodes[k]) then FailedAll(BadChain)
    else
      match BuildNode(env, nodes[k], GroupNode(c, i, k, nodes[k]), detour, st)
      case Failed(_) => FailedAll(NodeBuildError(nodes[k]))
      case Built(st1, t, _) =>
        match BuildGroupNodes(env, c, i, nodes, k + 1, detour, st1)
        case FailedAll(e) => FailedAll(e)
        case BuiltAll(st2, ts) => BuiltAll(st2, [t] + ts)
  }

  /** buildChainGroupMemberRuntimeOutbounds (runtime_chain.go:302). */
  function BuildGroup(env: Env, c: Id, i: nat, g: Id, detour: Option<Tag>, st: State, visiting: set<Id>): Step
    requires g in env.db.groups
    decreases |env.db.groups.Keys - visiting|, 0, 0
  {
    if g in visiting then Failed(CyclicGroup(g))
    else if Tag.ChainGroup(c, i, g) in st.tags then Built(st, Tag.ChainGroup(c, i, g), None)
    else
      match BuildGroupNodes(env, c, i, GroupNodes(env, g), 0, detour, st)
      case FailedAll(e) => Failed(e)
      case BuiltAll(st1, nodeTags) =>
        SubsetShrinks(env.db.groups.Keys, visiting, g);
        KnownContents(Unique(env.db.groups[g].groupIds), env.db.groups.Keys);
        match BuildChildren(env, c, i, ChildGroups(env, g), detour, st1, visiting + {g})
        case FailedAll(e) => Failed(e)
        case BuiltAll(st2, childTags) =>
          var members := MemberTags(ExitTags(Exits(env, g)) + nodeTags + childTags);
          Built(Emit(st2, Selector(Tag.ChainGroup(c, i, g), members)), Tag.ChainGroup(c, i, g), None)
  }

  function BuildChildren(env: Env, c: Id, i: nat, children: seq<Id>, detour: Option<Tag>, st: State,
                         visiting: set<Id>): Steps
    requires forall x :: x in children ==> x in env.db.groups
    decreases |env.db.groups.Keys - visiting|, 1, |children|
  {
    if |children| == 0 then BuiltAll(st, [])
    else
      match BuildGroup(env, c, i, children[0], detour, st, visiting)
      case Failed(e) => FailedAll(e)
      case Built(st1, t, _) =>
        match BuildChildren(env, c, i, children[1..], detour, st1, visiting)
        case FailedAll(e) => FailedAll(e)
        case BuiltAll(st2, ts) => BuiltAll(st2, [t] + ts)
  }

  lemma {:induction false} KnownContents(values: seq<Id>, known: set<Id>)
    ensures forall x :: x in Known(values, known) <==> x in values && x in known
  {
    if |values| > 0 {
      KnownContents(values[1..], known);
      assert values == [values[0]] + values[1..];
    }
  }

  /** The node loop of the terminal rewrite: each node of the group, then the final node behind it. */
  function BuildTerminalNodes(env: Env, c: Id, i: nat, nodes: seq<Id>, k: nat, final: Id, detour: Option<Tag>,
                              st: State): Steps
    decreases |nodes| - k
  {
    if k >= |nodes| then BuiltAll(st, [])
    else if !Plain(env, nodes[k]) then FailedAll(BadChain)
    else
      match BuildNode(env, nodes[k], GroupNode(c, i, k, nodes[k]), detour, st)
      case Failed(e) => FailedAll(e)
      case Built(st1, t1, _) =>
        match BuildNode(env, final, Tag.Terminal(c, i, k, final), Some(t1), st1)
        case Failed(e) => FailedAll(e)
        case Built(st2, t2, _) =>
          match BuildTerminalNodes(env, c, i, nodes, k + 1, final, detour, st2)
          case FailedAll(e) => FailedAll(e)
          case BuiltAll(st3, ts) => BuiltAll(st3, [t2] + ts)
  }

  /** buildTerminalChainGroupRuntimeOutbounds (runtime_chain.go:396). */
  function BuildTerminal(env: Env, c: Id, i: nat, g: Id, final: Id, detour: Option<Tag>, st: State): Terminal {
    if g !in env.db.groups then Handled(Failed(BadChain))
    else if env.db.groups[g].groupIds != [] || Exits(env, g) != [] then Declined
    else if !Plain(env, final) then Handled(Failed(BadChain))
    else if Tag.ChainGroup(c, i, g) in st.tags then Handled(Built(st, Tag.ChainGroup(c, i, g), None))
    else if GroupNodes(env, g) == [] then Declined
    else
      match BuildTerminalNodes(env, c, i, GroupNodes(env, g), 0, final, detour, st)
      case FailedAll(e) => Handled(Failed(e))
      case BuiltAll(st1, ts) =>
        if UniqueTags(ts) == [] then Declined
        else Handled(Built(Emit(st1, Selector(Tag.ChainGroup(c, i, g), UniqueTags(ts))), Tag.ChainGroup(c, i, g), None))
  }

  /** buildChainMemberRuntimeOutbounds (runtime_chain.go:221). */
  function BuildMember(env: Env, c: Id, i: nat, m: Member, detour: Option<Tag>, st: State): Step {
    match m
    case NodeMember(n) =>
      if !Plain(env, n) then Failed(BadChain) else BuildNode(env, n, Tag.ChainNode(c, i, n), detour, st)
    case GroupMember(g) =>
      if g !in env.db.groups then Failed(BadChain) else BuildGroup(env, c, i, g, detour, st, {})
  }

  predicate EndsInGroupNode(members: seq<Member>, k: nat) {
    |members| >= 2 && k == |members| - 2 && members[k].GroupMember? && members[k + 1].NodeMember?
  }

  /** The rewrite is tried only on a group that stands just before a final node. */
  function TryTerminal(env: Env, c: Id, members: seq<Member>, k: nat, detour: Option<Tag>, st: State,
                       rewrite: bool): Terminal {
    if rewrite && EndsInGroupNode(members, k) then
      BuildTerminal(env, c, k, members[k].id, members[k + 1].id, detour, st)
    else Declined
  }

  /** The member loop of buildChainRuntimeOutbounds (runtime_chain.go:156) from position k on; rewrite
      says whether the terminal rewrite is tried at all. */
  function BuildMembers(env: Env, c: Id, members: seq<Member>, k: nat, prev: Step, rewrite: bool): Step
    decreases |members| - k
  {
    match prev
    case Failed(_) => prev
    case Built(st, tag, _) =>
      if k >= |members| then prev
      else
        var detour := if k == 0 then None else Some(tag);
        var t := TryTerminal(env, c, members, k, detour, st, rewrite);
        if t.Handled? then t.step
        else BuildMembers(env, c, members, k + 1, BuildMember(env, c, k, members[k], detour, st), rewrite)
  }

  /** aliasOutbound (runtime_chain.go:136): a copy of the last outbound, or a selector over its tag. */
  function Alias(tag: Tag, target: Tag, last: Option<Outbound>): Outbound {
    match last
    case Some(NodeOut(_, n, d)) => NodeOut(tag, n, d)
    case Some(Selector(_, ms)) => Selector(tag, ms)
    case None => Selector(tag, [target])
  }

  /** buildNodeRuntimeOutbounds (runtime_chain.go:67) for a chain node. */
  function BuildChain(env: Env, c: Id, st: State, rewrite: bool): Step
    requires c in env.db.nodes
  {
    var members := NormalMembers(env.db.nodes[c].members);
    if |members| < 2 then Failed(BadChain)
    else
      match BuildMembers(env, c, members, 0, Built(st, Direct, None), rewrite)
      case Failed(e) => Failed(e)
      case Built(st1, t, last) =>
        if NodeTag(c) in st1.tags then Built(st1, NodeTag(c), None)
        else Built(Emit(st1, Alias(NodeTag(c), t, last)), NodeTag(c), None)
  }
}
