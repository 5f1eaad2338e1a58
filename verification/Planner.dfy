/** The plan of a mapping (service/proxy/runtime_plan.go:61-189, 458-620, 805-897): the mapping's own members
    and one balancer per proxy group below it, built by a memoised recursion over nested groups. */
module Planner {
  import opened Wrappers
  import opened Ids
  import opened GroupGraph
  import opened ConfigModel
  import opened TagCodec
  import opened ChainCompiler

  datatype Slot = Plain(node: Id) | Nested(group: Id, tag: Tag) | Builtin(tag: Tag)

  datatype PlanError = Cyclic | NodeFails(node: Id)

  /** How a list names the groups it refers to: a mapping may give some of them a strategy of its own
      (memberForMappingGroup, runtime_plan.go:606). */
  datatype Naming = PlainNames | MappingNames(mapping: Id, overrides: set<Id>)

  function TagFor(names: Naming, g: Id): Tag {
    if names.MappingNames? && g in names.overrides then MappingGroup(names.mapping, g) else GroupTag(g)
  }

  /** uniqueDynamicMembers keys a member by its ID, and a built-in by its tag. */
  function Key(s: Slot): Id {
    match s
    case Plain(n) => n
    case Nested(g, _) => g
    case Builtin(t) => Print(t)
  }

  function Keys(slots: seq<Slot>): set<Id> {
    set i | 0 <= i < |slots| :: Key(slots[i])
  }

  function UniqueSlots(slots: seq<Slot>): seq<Slot> {
    if |slots| == 0 then []
    else
      var head, s := UniqueSlots(slots[..|slots| - 1]), slots[|slots| - 1];
      if Key(s) == "" || Key(s) in Keys(head) then head else head + [s]
  }

  function BuiltinSlots(exits: seq<Exit>): seq<Slot> {
    if |exits| == 0 then [] else [Builtin(if exits[0].DirectExit? then Direct else Block)] + BuiltinSlots(exits[1..])
  }

  function PlainSlots(nodes: seq<Id>): seq<Slot> {
    if |nodes| == 0 then [] else [Plain(nodes[0])] + PlainSlots(nodes[1..])
  }

  function PlainNodes(slots: seq<Slot>): seq<Id> {
    if |slots| == 0 then [] else (if slots[0].Plain? then [slots[0].node] else []) + PlainNodes(slots[1..])
  }

  lemma {:induction false} PlainNodesContents(slots: seq<Slot>)
    ensures forall n :: n in PlainNodes(slots) <==> Plain(n) in slots
  {
    if |slots| > 0 {
      PlainNodesContents(slots[1..]);
      assert slots == [slots[0]] + slots[1..];
    }
  }

  /** Nobody to route to means the block outbound. */
  function OrBlock(slots: seq<Slot>): seq<Slot> {
    if UniqueSlots(slots) == [] then [Builtin(Block)] else UniqueSlots(slots)
  }

  /** Identifiers of nodes, groups and built-ins never coincide. */
  ghost predicate ApartIds(env: Env) {
    && env.db.nodes.Keys !! env.db.groups.Keys
    && forall x :: x in env.db.nodes || x in env.db.groups ==> x !in {"", "direct", "block"}
  }

  ghost predicate Picks(revive: seq<Id> -> seq<Id>) {
    forall ids :: SetOf(revive(ids)) <= SetOf(ids)
  }

  /** A member is what its key says: a built-in, a node or a group of the tables. */
  ghost predicate Tidy(env: Env, names: Naming, s: Slot) {
    match s
    case Plain(n) => n in env.db.nodes
    case Nested(g, t) => g in env.db.groups && t == TagFor(names, g)
    case Builtin(t) => t == Direct || t == Block
  }

  lemma TidyKey(env: Env, names: Naming, s: Slot)
    requires ApartIds(env) && Tidy(env, names, s)
    ensures Key(s) != ""
  {
  }

  lemma SameKey(env: Env, names: Naming, a: Slot, b: Slot)
    requires ApartIds(env) && Tidy(env, names, a) && Tidy(env, names, b) && Key(a) == Key(b)
    ensures a == b
  {
  }

  lemma {:induction false} UniqueKeepsTidy(env: Env, names: Naming, slots: seq<Slot>)
    requires ApartIds(env) && forall s :: s in slots ==> Tidy(env, names, s)
    ensures forall s :: s in UniqueSlots(slots) <==> s in slots
  {
    if |slots| > 0 {
      var init, s := slots[..|slots| - 1], slots[|slots| - 1];
      assert slots == init + [s];
      UniqueKeepsTidy(env, names, init);
      TidyKey(env, names, s);
      if Key(s) in Keys(UniqueSlots(init)) {
        var i :| 0 <= i < |UniqueSlots(init)| && Key(UniqueSlots(init)[i]) == Key(s);
        SameKey(env, names, UniqueSlots(init)[i], s);
      }
    }
  }

  lemma UniqueOfSome(nodes: seq<Id>)
    requires "" !in nodes && nodes != []
    ensures Unique(nodes) != []
  {
    UniqueContents(nodes);
    assert nodes[0] in Unique(nodes);
  }

  lemma {:induction false} PlainSlotsContents(nodes: seq<Id>)
    ensures forall s :: s in PlainSlots(nodes) <==> s.Plain? && s.node in nodes
  {
    if |nodes| > 0 {
      PlainSlotsContents(nodes[1..]);
      assert nodes == [nodes[0]] + nodes[1..];
    }
  }

  lemma {:induction false} BuiltinSlotsContents(exits: seq<Exit>)
    ensures forall s :: s in BuiltinSlots(exits) ==> s == Builtin(Direct) || s == Builtin(Block)
  {
    if |exits| > 0 {
      BuiltinSlotsContents(exits[1..]);
    }
  }

  lemma {:induction false} GroupNodesKnown(env: Env, g: Id)
    ensures forall n :: n in GroupNodes(env, g) ==> n in env.db.nodes
  {
    if g in env.db.groups {
      var listed := Known(Unique(env.db.groups[g].nodeIds), env.db.nodes.Keys);
      KnownContents(Unique(env.db.groups[g].nodeIds), env.db.nodes.Keys);
      GroupedKnown(env, g, env.order, listed);
    }
  }

  lemma {:induction false} GroupedKnown(env: Env, g: Id, rows: seq<Id>, listed: seq<Id>)
    ensures forall n :: n in Grouped(env, g, rows, listed) ==> n in env.db.nodes
  {
    if |rows| > 0 {
      GroupedKnown(env, g, rows[1..], listed);
    }
  }

  lemma ChildGroupsAreEdges(env: Env, g: Id)
    requires g in env.db.groups && "" !in env.db.groups
    ensures forall c :: c in ChildGroups(env, g) <==> Edge(GraphOf(env.db.groups), g, c)
  {
    KnownContents(Unique(env.db.groups[g].groupIds), env.db.groups.Keys);
    UniqueContents(env.db.groups[g].groupIds);
  }

  /** Groups for which some balancer has been planned. */
  ghost function PlannedOf(plans: map<Tag, seq<Slot>>): set<Id> {
    set t | t in plans :: GroupOfTag(t)
  }

  /** The group a balancer stands for. */
  ghost function GroupOfTag(t: Tag): Id {
    match t
    case GroupTag(g) => g
    case MappingGroup(_, g) => g
    case _ => ""
  }

  class PlanBuilder {
    const env: Env
    const excluded: set<Id>
    const broken: set<Id>
    const revive: seq<Id> -> seq<Id>
    ghost const before: set<Id>
    var plans: map<Tag, seq<Slot>>
    var blacklisted: set<Id>
    var visiting: set<Id>

    /** The blacklist a plan starts from includes what has been excluded. */
    constructor (env: Env, excluded: set<Id>, blacklisted: set<Id>, broken: set<Id>, revive: seq<Id> -> seq<Id>)
      ensures this.env == env && this.excluded == excluded && this.broken == broken && this.revive == revive
      ensures this.blacklisted == blacklisted + excluded == this.before
      ensures plans == map[] && visiting == {}
    {
      this.env, this.excluded, this.broken, this.revive := env, excluded, broken, revive;
      this.blacklisted, this.before := blacklisted + excluded, blacklisted + excluded;
      plans, visiting := map[], {};
    }

    ghost function Links(): Graph
    {
      GraphOf(env.db.groups)
    }

    /** The nodes that may be direct members of a list: no excluded one, every one that was never
        blacklisted, and somebody if nobody is excluded and a revival finds anybody. */
    ghost predicate Chosen(nodes: seq<Id>, chosen: seq<Id>)
    {
      && (forall n :: n in chosen ==> n in nodes && n !in excluded)
      && (forall n :: n in nodes && n !in before ==> n in chosen)
      && (nodes != [] && (forall n :: n in nodes ==> n !in excluded) && revive(Unique(nodes)) != [] ==> chosen != [])
    }

    /** A group's plan: its built-ins, chosen nodes and all its child groups, or block. */
    ghost predicate PlanRight(g: Id, plan: seq<Slot>)
    {
      && plan != []
      && Chosen(GroupNodes(env, g), PlainNodes(plan))
      && forall c, t :: Nested(c, t) in plan <==> c in ChildGroups(env, g) && t == GroupTag(c)
    }

    /** The memo: planned groups are settled, and every balancer planned for a group is right. */
    ghost predicate Memo(plans: map<Tag, seq<Slot>>) {
      && Settled(Links(), PlannedOf(plans))
      && forall t {:trigger PlanRight(GroupOfTag(t), plans[t])} ::
           t in plans ==> GroupOfTag(t) in env.db.groups && PlanRight(GroupOfTag(t), plans[t])
    }

    lemma MemoGrows(plans: map<Tag, seq<Slot>>, g: Id, tag: Tag, plan: seq<Slot>)
      requires Memo(plans) && g in env.db.groups && PlanRight(g, plan) && GroupOfTag(tag) == g
      requires forall c :: Edge(Links(), g, c) ==> c in PlannedOf(plans)
      ensures Memo(plans[tag := plan])
    {
      var planned := PlannedOf(plans);
      if g !in planned {
        SettleOne(Links(), planned, g);
      }
      assert PlannedOf(plans[tag := plan]) == planned + {g};
      assert g in planned ==> planned + {g} == planned;
      var grown := plans[tag := plan];
      forall t | t in grown
        ensures GroupOfTag(t) in env.db.groups && PlanRight(GroupOfTag(t), grown[t])
      {
        if t != tag {
          assert PlanRight(GroupOfTag(t), plans[t]);
        }
      }
    }

    ghost predicate Consistent()
      reads this
    {
      && ApartIds(env) && Picks(revive)
      && excluded <= before && blacklisted <= before
      && Memo(plans) && visiting <= env.db.groups.Keys
    }

    /** The grey groups form a path from the group the search started with. */
    ghost predicate OnPath(stack: seq<Id>, root: Id) {
      |stack| > 0 ==> stack[0] == root && IsPath(Links(), stack)
    }

    /** membersForNodes (runtime_plan.go:458). */
    method MembersForNodes(nodes: seq<Id>, ignoreBlacklist: bool) returns (err: Option<PlanError>, chosen: seq<Id>)
      ensures err == None ==>
                forall n :: n in chosen <==> n in nodes && n !in excluded && (n !in blacklisted || ignoreBlacklist)
      ensures err != None ==>
                err.value.NodeFails? && err.value.node in nodes && err.value.node in broken
                  && err.value.node !in excluded
    {
      chosen, err := [], None;
      for i := 0 to |nodes|
        invariant forall n :: n in chosen <==>
                    n in nodes[..i] && n !in excluded && (n !in blacklisted || ignoreBlacklist)
      {
        assert nodes[..i + 1] == nodes[..i] + [nodes[i]];
        if nodes[i] in excluded || (nodes[i] in blacklisted && !ignoreBlacklist) {
          continue;
        }
        if nodes[i] in broken {
          return Some(NodeFails(nodes[i])), [];
        }
        chosen := chosen + [nodes[i]];
      }
      assert nodes[..|nodes|] == nodes;
    }

    /** reviveIfAllCandidatesBlacklisted (runtime_plan.go:472). */
    method ReviveIfAllBlacklisted(nodes: seq<Id>) returns (revived: bool)
      requires "" !in nodes
      modifies this`blacklisted
      ensures blacklisted <= old(blacklisted)
      ensures revived <==>
                && nodes != [] && revive(Unique(nodes)) != []
                && forall n :: n in nodes ==> n in old(blacklisted) - excluded
      ensures blacklisted == if revived then old(blacklisted) - SetOf(revive(Unique(nodes))) else old(blacklisted)
    {
      var ids := UniqueNonEmpty(nodes);
      if nodes != [] {
        UniqueOfSome(nodes);
      }
      if |ids| == 0 {
        return false;
      }
      for i := 0 to |ids|
        invariant forall k :: 0 <= k < i ==> ids[k] in blacklisted - excluded
      {
        if ids[i] in excluded || ids[i] !in blacklisted {
          assert ids[i] in nodes;
          return false;
        }
      }
      var woken := revive(ids);
      if |woken| == 0 {
        return false;
      }
      assert forall n :: n in nodes ==> n in ids;
      blacklisted := blacklisted - set n | n in woken;
      return true;
    }

    /** The node part of a member list: blacklisted nodes are left out, unless that leaves nobody and some
        can be revived. */
    method ChooseNodes(nodes: seq<Id>) returns (err: Option<PlanError>, chosen: seq<Id>)
      requires "" !in nodes && Picks(revive) && excluded <= before && blacklisted <= before
      modifies this`blacklisted
      ensures blacklisted <= old(blacklisted)
      ensures err == None ==> Chosen(nodes, chosen)
      ensures err != None ==>
                err.value.NodeFails? && err.value.node in nodes && err.value.node in broken
                  && err.value.node !in excluded
    {
      err, chosen := MembersForNodes(nodes, false);
      if err != None || |chosen| > 0 {
        return;
      }
      var revived := ReviveIfAllBlacklisted(nodes);
      if revived {
        err, chosen := MembersForNodes(nodes, false);
        var woken := revive(Unique(nodes));
        UniqueContents(nodes);
        assert woken[0] in SetOf(woken);
        assert SetOf(woken) <= SetOf(Unique(nodes));
        assert woken[0] in nodes && woken[0] !in blacklisted;
      }
    }

    ghost predicate CycleBelow(root: Id)
    {
      exists a :: Reaches(Links(), root, a) && OnCycle(Links(), a)
    }

    /** memberForGroupWithPolicy (runtime_plan.go:805): the memo is the black set, visiting the grey one. */
    method MemberForGroup(g: Id, tag: Tag, ghost stack: seq<Id>, ghost root: Id) returns (err: Option<PlanError>)
      requires Consistent() && g in env.db.groups && OnPath(stack, root) && visiting == SetOf(stack)
      requires if |stack| > 0 then Edge(Links(), stack[|stack| - 1], g) else g == root
      requires GroupOfTag(tag) == g && (tag.GroupTag? || tag.MappingGroup?)
      modifies this
      ensures blacklisted <= old(blacklisted)
      ensures err == None ==> Consistent() && tag in plans && old(plans).Keys <= plans.Keys && visiting == old(visiting)
      ensures err == Some(Cyclic) ==> CycleBelow(root)
      ensures err != None && err.value.NodeFails? ==> err.value.node in broken && err.value.node !in excluded
      decreases |env.db.groups.Keys - visiting|, 1
    {
      if tag in plans {
        return None;
      }
      if g in visiting {
        GreyHitIsCycle(Links(), stack, g);
        return Some(Cyclic);
      }
      err := Enter(g, tag, stack, root);
    }

    lemma PathGrows(stack: seq<Id>, root: Id, g: Id)
      requires g in env.db.groups && OnPath(stack, root)
      requires if |stack| > 0 then Edge(Links(), stack[|stack| - 1], g) else g == root
      ensures OnPath(stack + [g], root) && SetOf(stack + [g]) == SetOf(stack) + {g}
    {
    }

    /** Marks a group grey while its members are planned. */
    method Enter(g: Id, tag: Tag, ghost stack: seq<Id>, ghost root: Id) returns (err: Option<PlanError>)
      requires Consistent() && g in env.db.groups && g !in visiting && OnPath(stack, root) && visiting == SetOf(stack)
      requires if |stack| > 0 then Edge(Links(), stack[|stack| - 1], g) else g == root
      requires GroupOfTag(tag) == g && (tag.GroupTag? || tag.MappingGroup?)
      modifies this
      ensures blacklisted <= old(blacklisted)
      ensures err == None ==> Consistent() && tag in plans && old(plans).Keys <= plans.Keys && visiting == old(visiting)
      ensures err == Some(Cyclic) ==> CycleBelow(root)
      ensures err != None && err.value.NodeFails? ==> err.value.node in broken && err.value.node !in excluded
      decreases |env.db.groups.Keys - visiting|, 0
    {
      SubsetShrinks(env.db.groups.Keys, visiting, g);
      visiting := visiting + {g};
      PathGrows(stack, root, g);
      err := Expand(g, tag, stack + [g], root);
      if err != None {
        return;
      }
      visiting := visiting - {g};
      assert visiting == old(visiting);
    }

    /** The members of a group that is being visited, then its balancer. */
    method Expand(g: Id, tag: Tag, ghost stack: seq<Id>, ghost root: Id) returns (err: Option<PlanError>)
      requires Consistent() && OnPath(stack, root) && visiting == SetOf(stack)
      requires |stack| > 0 && stack[|stack| - 1] == g && g in env.db.groups
      requires GroupOfTag(tag) == g && (tag.GroupTag? || tag.MappingGroup?)
      modifies this
      ensures blacklisted <= old(blacklisted)
      ensures err == None ==> Consistent() && tag in plans && old(plans).Keys <= plans.Keys && visiting == old(visiting)
      ensures err == Some(Cyclic) ==> CycleBelow(root)
      ensures err != None && err.value.NodeFails? ==> err.value.node in broken && err.value.node !in excluded
      decreases |env.db.groups.Keys - visiting|, 3
    {
      var nodes := GroupNodes(env, g);
      GroupNodesKnown(env, g);
      var chosen;
      err, chosen := ChooseNodes(nodes);
      if err != None {
        return;
      }
      var slots := BuiltinSlots(Exits(env, g)) + PlainSlots(chosen);
      var kids := ChildGroups(env, g);
      ChildGroupsAreEdges(env, g);
      err, slots := ChildMembers(g, kids, slots, stack, root);
      if err != None {
        return;
      }
      slots := OrBlock(slots);
      PlanIsRight(g, chosen, kids, slots);
      MemoGrows(plans, g, tag, slots);
      plans := plans[tag := slots];
    }

    /** The child loop of one group. */
    method ChildMembers(g: Id, kids: seq<Id>, start: seq<Slot>, ghost stack: seq<Id>, ghost root: Id)
      returns (err: Option<PlanError>, slots: seq<Slot>)
      requires Consistent() && OnPath(stack, root) && visiting == SetOf(stack) && |stack| > 0 && stack[|stack| - 1] == g
      requires forall c :: c in kids ==> Edge(Links(), g, c)
      modifies this
      ensures blacklisted <= old(blacklisted)
      ensures err == None ==>
                && Consistent() && old(plans).Keys <= plans.Keys && visiting == old(visiting)
                && (forall c :: c in kids ==> c in PlannedOf(plans))
                && slots == start + NestedSlots(PlainNames, kids)
      ensures err == Some(Cyclic) ==> CycleBelow(root)
      ensures err != None && err.value.NodeFails? ==> err.value.node in broken && err.value.node !in excluded
      decreases |env.db.groups.Keys - visiting|, 2
    {
      slots, err := start, None;
      ghost var done: set<Tag> := {};
      for i := 0 to |kids|
        invariant err == None && Consistent() && visiting == old(visiting) && old(plans).Keys <= plans.Keys
        invariant blacklisted <= old(blacklisted)
        invariant done <= plans.Keys
        invariant forall k :: 0 <= k < i ==> GroupTag(kids[k]) in done
        invariant slots == start + NestedSlots(PlainNames, kids[..i])
      {
        assert kids[i] in kids;
        err := MemberForGroup(kids[i], GroupTag(kids[i]), stack, root);
        if err != None {
          return;
        }
        done := done + {GroupTag(kids[i])};
        assert kids[..i + 1][..i] == kids[..i];
        slots := slots + [Nested(kids[i], GroupTag(kids[i]))];
      }
      assert kids[..|kids|] == kids;
      KidsPlanned(plans, kids);
    }

    lemma PlanIsRight(g: Id, chosen: seq<Id>, kids: seq<Id>, plan: seq<Slot>)
      requires ApartIds(env) && g in env.db.groups && Chosen(GroupNodes(env, g), chosen)
      requires kids == ChildGroups(env, g)
      requires plan == OrBlock(BuiltinSlots(Exits(env, g)) + PlainSlots(chosen) + NestedSlots(PlainNames, kids))
      ensures PlanRight(g, plan)
    {
      GroupNodesKnown(env, g);
      KnownContents(Unique(env.db.groups[g].groupIds), env.db.groups.Keys);
      SlotContents(env, PlainNames, Exits(env, g), chosen, kids);
      PlainNodesContents(plan);
      if chosen != [] {
        assert chosen[0] in PlainNodes(plan);
      }
    }

    ghost predicate MayServe(n: Id, forced: bool) {
      n !in excluded && (forced || n !in before)
    }

    /** A mapping's own list: no excluded node, every node that may serve, all its known groups under the
        names of their balancers, and never nothing. */
    ghost predicate Listed(m: Id, row: MappingRow, overrides: set<Id>, members: seq<Slot>) {
      && members != []
      && (forall n :: Plain(n) in members ==> n in KnownNodes(env, row) && n !in excluded)
      && (forall n :: n in KnownNodes(env, row) && MayServe(n, row.manual) ==> Plain(n) in members)
      && (forall g, t :: Nested(g, t) in members <==>
            g in KnownGroups(env, row) && t == TagFor(MappingNames(m, overrides), g))
      && (forall t :: Builtin(t) in members ==> t == Direct || t == Block)
    }

    /** The nodes of a mapping: a fixed choice takes blacklisted ones too (runtime_plan.go:112). */
    method OwnNodes(row: MappingRow) returns (err: Option<PlanError>, chosen: seq<Id>)
      requires Consistent()
      modifies this`blacklisted
      ensures err == None ==>
                && Consistent()
                && (forall n :: n in chosen ==> n in KnownNodes(env, row) && n !in excluded)
                && (forall n :: n in KnownNodes(env, row) && MayServe(n, row.manual) ==> n in chosen)
      ensures err == None || (err.value.NodeFails? && err.value.node in broken && err.value.node !in excluded)
    {
      var nodes := KnownNodes(env, row);
      KnownContents(Unique(row.nodeIds), env.db.nodes.Keys);
      if row.manual {
        err, chosen := MembersForNodes(nodes, true);
      } else {
        err, chosen := ChooseNodes(nodes);
      }
    }

    /** The groups of a mapping, each planned with nothing grey. */
    method OwnGroups(m: Id, groups: seq<Id>, overrides: set<Id>) returns (err: Option<PlanError>)
      requires Consistent() && visiting == {} && forall g :: g in groups ==> g in env.db.groups
      modifies this
      ensures err == None ==> Consistent() && visiting == {} && forall g :: g in groups ==> g in PlannedOf(plans)
      ensures err == Some(Cyclic) ==> exists g :: g in groups && CycleBelow(g)
      ensures err != None && err.value.NodeFails? ==> err.value.node in broken && err.value.node !in excluded
    {
      err := None;
      ghost var done: set<Tag> := {};
      for i := 0 to |groups|
        invariant err == None && Consistent() && visiting == {} && done <= plans.Keys
        invariant forall k :: 0 <= k < i ==> TagFor(MappingNames(m, overrides), groups[k]) in done
      {
        var g := groups[i];
        assert g in groups;
        err := MemberForGroup(g, TagFor(MappingNames(m, overrides), g), [], g);
        if err != None {
          return;
        }
        done := done + {TagFor(MappingNames(m, overrides), g)};
      }
      forall g | g in groups
        ensures g in PlannedOf(plans)
      {
        assert GroupOfTag(TagFor(MappingNames(m, overrides), g)) == g;
      }
    }

    /** The members of a mapping. The planner reports a cyclic group only when the mapping's groups reach a
        cycle, and never succeeds when they do: apart from nodes that cannot be built, it fails in the same
        cases as the search in GroupGraph. */
    method MappingMembers(m: Id, row: MappingRow, overrides: set<Id>)
      returns (err: Option<PlanError>, members: seq<Slot>)
      requires Consistent() && visiting == {}
      modifies this
      ensures err == None ==>
                Memo(plans) && !CycleReachable(Links(), row.groupIds) && Listed(m, row, overrides, members)
      ensures err == Some(Cyclic) ==> CycleReachable(Links(), row.groupIds)
      ensures err != None && err.value.NodeFails? ==> err.value.node in broken && err.value.node !in excluded
    {
      members := [];
      var chosen;
      err, chosen := OwnNodes(row);
      if err != None {
        return;
      }
      var groups := KnownGroups(env, row);
      KnownGroupsContents(row);
      err := OwnGroups(m, groups, overrides);
      if err != None {
        if err == Some(Cyclic) {
          CycleAbove(row);
        }
        return;
      }
      SettledSeeds(Links(), PlannedOf(plans), row.groupIds);
      members := OrBlock(PlainSlots(chosen) + NestedSlots(MappingNames(m, overrides), groups));
      MappingListed(m, row, overrides, chosen, members);
    }

    lemma KnownGroupsContents(row: MappingRow)
      requires ApartIds(env)
      ensures forall g :: g in KnownGroups(env, row) <==> g in row.groupIds && g in env.db.groups
    {
      KnownContents(Unique(row.groupIds), env.db.groups.Keys);
      UniqueContents(row.groupIds);
    }

    lemma CycleAbove(row: MappingRow)
      requires ApartIds(env) && exists g :: g in KnownGroups(env, row) && CycleBelow(g)
      ensures CycleReachable(Links(), row.groupIds)
    {
      KnownGroupsContents(row);
      var g :| g in KnownGroups(env, row) && CycleBelow(g);
      var a :| Reaches(Links(), g, a) && OnCycle(Links(), a);
      assert ReachesAny(Links(), row.groupIds, a);
    }

    lemma MappingListed(m: Id, row: MappingRow, overrides: set<Id>, chosen: seq<Id>, members: seq<Slot>)
      requires ApartIds(env)
      requires forall n :: n in chosen ==> n in KnownNodes(env, row) && n !in excluded
      requires forall n :: n in KnownNodes(env, row) && MayServe(n, row.manual) ==> n in chosen
      requires members == OrBlock(PlainSlots(chosen) + NestedSlots(MappingNames(m, overrides), KnownGroups(env, row)))
      ensures Listed(m, row, overrides, members)
    {
      KnownContents(Unique(row.nodeIds), env.db.nodes.Keys);
      KnownContents(Unique(row.groupIds), env.db.groups.Keys);
      SlotContents(env, MappingNames(m, overrides), [], chosen, KnownGroups(env, row));
      assert BuiltinSlots([]) + PlainSlots(chosen) == PlainSlots(chosen);
      PlainSlotsContents(chosen);
      NestedSlotsContents(MappingNames(m, overrides), KnownGroups(env, row));
      OnlyBlockIsBuiltIn(PlainSlots(chosen) + NestedSlots(MappingNames(m, overrides), KnownGroups(env, row)));
    }

    lemma KeyIsListed(m: Id, row: MappingRow, overrides: set<Id>, members: seq<Slot>, x: Id)
      requires Listed(m, row, overrides, members) && x !in {"", "direct", "block"}
      ensures x in Keys(members) <==> x in KnownGroups(env, row) || Plain(x) in members
    {
      if x in KnownGroups(env, row) {
        MemberHasKey(members, Nested(x, TagFor(MappingNames(m, overrides), x)));
      }
      if Plain(x) in members {
        MemberHasKey(members, Plain(x));
      }
      if x in Keys(members) {
        var s := MemberOfKey(members, x);
      }
    }

    /** A fixed choice never falls back to another route. */
    lemma FixedChoiceNeverFallsBack(m: Id, row: MappingRow, overrides: set<Id>, members: seq<Slot>)
      requires ApartIds(env) && Listed(m, row, overrides, members)
      requires row.manual && Explicit(row) && ChoiceIsClear(env, row)
      ensures RightChoice(env, row, excluded, FinalPlan(row, members))
    {
      KnownContents(Unique(row.nodeIds), env.db.nodes.Keys);
      KnownContents(Unique(row.groupIds), env.db.groups.Keys);
      if row.activeGroup != "" {
        KeyIsListed(m, row, overrides, members, row.activeGroup);
      }
      if row.activeNode != "" {
        KeyIsListed(m, row, overrides, members, row.activeNode);
      }
    }
  }

  datatype MappingPlan = MappingPlan(members: seq<Slot>, selected: Id)

  /** findNodesByIDs and findGroupsByIDs on a mapping's lists. */
  function KnownNodes(env: Env, row: MappingRow): seq<Id> {
    Known(Unique(row.nodeIds), env.db.nodes.Keys)
  }

  function KnownGroups(env: Env, row: MappingRow): seq<Id> {
    Known(Unique(row.groupIds), env.db.groups.Keys)
  }

  predicate Explicit(row: MappingRow) {
    row.activeGroup != "" || row.activeNode != ""
  }

  /** selectedMappingMember (runtime_plan.go:983): the chosen group, else the chosen node, else nobody; the
      first member when nothing was chosen. */
  function SelectedMember(row: MappingRow, members: seq<Slot>): Id {
    if row.activeGroup != "" && row.activeGroup in Keys(members) then row.activeGroup
    else if row.activeNode != "" && row.activeNode in Keys(members) then row.activeNode
    else if Explicit(row) || members == [] then ""
    else Key(members[0])
  }

  /** A fixed choice that is not among the members must not fall back to another route. */
  function FinalPlan(row: MappingRow, members: seq<Slot>): MappingPlan {
    if !row.manual then MappingPlan(members, "")
    else if SelectedMember(row, members) == "" then MappingPlan([Builtin(Block)], "block")
    else MappingPlan(members, SelectedMember(row, members))
  }

  lemma {:induction false} UniqueSlotsAdd(slots: seq<Slot>)
    ensures forall s :: s in UniqueSlots(slots) ==> s in slots
  {
    if |slots| > 0 {
      UniqueSlotsAdd(slots[..|slots| - 1]);
    }
  }

  lemma OnlyBlockIsBuiltIn(slots: seq<Slot>)
    requires forall t :: Builtin(t) !in slots
    ensures forall t :: Builtin(t) in OrBlock(slots) ==> t == Block
  {
    UniqueSlotsAdd(slots);
  }

  lemma MemberHasKey(members: seq<Slot>, s: Slot)
    requires s in members
    ensures Key(s) in Keys(members)
  {
  }

  lemma MemberOfKey(members: seq<Slot>, x: Id) returns (s: Slot)
    requires x in Keys(members)
    ensures s in members && Key(s) == x
  {
    var i :| 0 <= i < |members| && Key(members[i]) == x;
    s := members[i];
  }

  /** The two columns of a fixed choice name a group and a node, not the other way round. */
  predicate ChoiceIsClear(env: Env, row: MappingRow) {
    && row.activeGroup !in env.db.nodes && row.activeNode !in env.db.groups
    && row.activeGroup !in {"direct", "block"} && row.activeNode !in {"direct", "block"}
  }

  /** A fixed choice routes to the chosen group if the mapping has it, else to the chosen node if the mapping has
      it and it is not excluded, blacklisted or not, else nowhere. */
  predicate RightChoice(env: Env, row: MappingRow, excluded: set<Id>, p: MappingPlan) {
    if row.activeGroup in KnownGroups(env, row) then p.selected == row.activeGroup && p.selected in Keys(p.members)
    else if row.activeNode in KnownNodes(env, row) && row.activeNode !in excluded then
      p.selected == row.activeNode && p.selected in Keys(p.members)
    else p.selected == "block" && p.members == [Builtin(Block)]
  }

  lemma KidsPlanned(plans: map<Tag, seq<Slot>>, kids: seq<Id>)
    requires forall k :: 0 <= k < |kids| ==> GroupTag(kids[k]) in plans
    ensures forall c :: c in kids ==> c in PlannedOf(plans)
  {
    forall c | c in kids
      ensures c in PlannedOf(plans)
    {
      assert GroupOfTag(GroupTag(c)) == c;
    }
  }

  lemma SlotContents(env: Env, names: Naming, exits: seq<Exit>, chosen: seq<Id>, kids: seq<Id>)
    requires ApartIds(env)
    requires forall n :: n in chosen ==> n in env.db.nodes
    requires forall c :: c in kids ==> c in env.db.groups
    ensures var plan := OrBlock(BuiltinSlots(exits) + PlainSlots(chosen) + NestedSlots(names, kids));
            && plan != []
            && (forall n :: Plain(n) in plan <==> n in chosen)
            && (forall c, t :: Nested(c, t) in plan <==> c in kids && t == TagFor(names, c))
  {
    var all := BuiltinSlots(exits) + PlainSlots(chosen) + NestedSlots(names, kids);
    BuiltinSlotsContents(exits);
    PlainSlotsContents(chosen);
    NestedSlotsContents(names, kids);
    forall s | s in all
      ensures Tidy(env, names, s)
    {
    }
    UniqueKeepsTidy(env, names, all);
    if UniqueSlots(all) == [] {
      forall s
        ensures s !in all
      {
        assert s in all <==> s in UniqueSlots(all);
      }
      assert forall n :: n in chosen ==> Plain(n) in all;
      assert forall c :: c in kids ==> Nested(c, TagFor(names, c)) in all;
    }
  }

  function NestedSlots(names: Naming, kids: seq<Id>): seq<Slot> {
    if |kids| == 0 then []
    else
      NestedSlots(names, kids[..|kids| - 1])
      + [Nested(kids[|kids| - 1], TagFor(names, kids[|kids| - 1]))]
  }

  lemma {:induction false} NestedSlotsContents(names: Naming, kids: seq<Id>)
    ensures forall s :: s in NestedSlots(names, kids) <==>
              s.Nested? && s.group in kids && s.tag == TagFor(names, s.group)
  {
    if |kids| > 0 {
      NestedSlotsContents(names, kids[..|kids| - 1]);
      assert kids == kids[..|kids| - 1] + [kids[|kids| - 1]];
    }
  }
}
