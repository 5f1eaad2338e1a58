/** Handing the groups of a compiled chain to balancers (service/proxy/runtime_plan.go:622-731): every selector of
    a chain group is taken out of the plan and a balancer under the same tag offers its members, each under the
    identifier of a node.  Members with one identifier are one member, so the hand-over may lose some. */
module ChainBalancers {
  import opened Wrappers
  import opened Ids
  import opened GroupGraph
  import opened ConfigModel
  import opened TagCodec
  import opened Outbounds
  import opened ChainCompiler
  import opened ChainMeaning
  import opened ChainTheorems
  import opened DirectExits

  datatype Offer = Offer(id: Id, tag: Tag)

  // ---------------------------------------------------------------- who is behind a tag

  /** runtimeChainGroupMemberNodeID (runtime_chain.go:710), empty when there is no such node. */
  function GroupNodeAt(env: Env, chain: Id, index: nat, member: nat): Id {
    if chain !in env.db.nodes then ""
    else
      var members := NormalMembers(env.db.nodes[chain].members);
      if index < |members| && members[index].GroupMember? then
        var nodes := GroupNodes(env, members[index].id);
        if member < |nodes| then nodes[member] else ""
      else ""
  }

  /** The node remembered for a tag when its outbound was built. */
  function NodeBehind(t: Tag): Id {
    match t
    case NodeTag(n) => n
    case ChainNode(_, _, n) => n
    case GroupNode(_, _, _, n) => n
    case Terminal(_, _, _, n) => n
    case _ => ""
  }

  function OrTag(id: Id, t: Tag): Id {
    if id == "" then Print(t) else id
  }

  function OfferId(env: Env, t: Tag): Id {
    if Builtin(t) then Print(t)
    else
      match ParseTerminal(Print(t))
      case Some(p) => OrTag(GroupNodeAt(env, p.0, p.1, p.2), t)
      case None => OrTag(NodeBehind(t), t)
  }

  function IdsOf(offers: seq<Offer>): set<Id> {
    set o | o in offers :: o.id
  }

  /** staticSelectorDynamicMembers (runtime_plan.go:688): the first member of each identifier stays. */
  function Balancer(env: Env, tags: seq<Tag>): seq<Offer> {
    if |tags| == 0 then []
    else
      var head, t := Balancer(env, tags[..|tags| - 1]), tags[|tags| - 1];
      if OfferId(env, t) in IdsOf(head) then head else head + [Offer(OfferId(env, t), t)]
  }

  function OfferedTags(offers: seq<Offer>): seq<Tag> {
    seq(|offers|, i requires 0 <= i < |offers| => offers[i].tag)
  }

  ghost predicate DifferentIds(env: Env, tags: seq<Tag>) {
    forall i, j :: 0 <= i < j < |tags| ==> OfferId(env, tags[i]) != OfferId(env, tags[j])
  }

  lemma {:induction false} BalancerIds(env: Env, tags: seq<Tag>)
    ensures forall t :: t in tags ==> OfferId(env, t) in IdsOf(Balancer(env, tags))
    ensures forall o :: o in Balancer(env, tags) ==> o.tag in tags && o.id == OfferId(env, o.tag)
  {
    if |tags| > 0 {
      var init, t := tags[..|tags| - 1], tags[|tags| - 1];
      BalancerIds(env, init);
      assert tags == init + [t];
      var head := Balancer(env, init);
      assert Balancer(env, tags) == head || Balancer(env, tags) == head + [Offer(OfferId(env, t), t)];
      assert IdsOf(head) <= IdsOf(Balancer(env, tags));
      if OfferId(env, t) !in IdsOf(head) {
        assert (head + [Offer(OfferId(env, t), t)])[|head|].id == OfferId(env, t);
      }
    }
  }

  /** Members with different identifiers all stay. */
  lemma {:induction false} AllOffered(env: Env, tags: seq<Tag>)
    requires DifferentIds(env, tags)
    ensures OfferedTags(Balancer(env, tags)) == tags
  {
    if |tags| > 0 {
      var init, t := tags[..|tags| - 1], tags[|tags| - 1];
      assert tags == init + [t];
      AllOffered(env, init);
      BalancerIds(env, init);
      var head := Balancer(env, init);
      assert OfferedTags(head + [Offer(OfferId(env, t), t)]) == OfferedTags(head) + [t];
    }
  }

  /** The second of two members with one identifier is lost. */
  lemma {:induction false} SecondIsLost(env: Env, tags: seq<Tag>, i: nat, j: nat)
    requires i < j < |tags| && OfferId(env, tags[i]) == OfferId(env, tags[j])
    requires forall x, y :: 0 <= x < y < |tags| ==> tags[x] != tags[y]
    ensures forall o :: o in Balancer(env, tags) ==> o.tag != tags[j]
    decreases |tags|
  {
    var init, t := tags[..|tags| - 1], tags[|tags| - 1];
    BalancerIds(env, init);
    if j < |init| {
      assert init[i] == tags[i] && init[j] == tags[j];
      SecondIsLost(env, init, i, j);
    } else {
      assert init[i] == tags[i] && tags[i] in init;
      assert tags[j] !in init;
    }
  }

  // ---------------------------------------------------------------- the hand-over

  function HandOver(env: Env, handed: set<Tag>, o: Outbound): Outbound {
    if o.Selector? && o.tag in handed then Selector(o.tag, OfferedTags(Balancer(env, o.members))) else o
  }

  /** The outbounds with every handed selector offering what its balancer offers. */
  function Handed(env: Env, handed: set<Tag>, outs: seq<Outbound>): seq<Outbound> {
    seq(|outs|, i requires 0 <= i < |outs| => HandOver(env, handed, outs[i]))
  }

  ghost function GroupTagsBelow(env: Env, c: Id, i: nat, g: Id): set<Tag> {
    set x | x in env.db.groups && Reaches(GraphOf(env.db.groups), g, x) :: Tag.ChainGroup(c, i, x)
  }

  /** The tags of all groups at or below the first n members. */
  ghost function GroupTagsOf(env: Env, c: Id, members: seq<Member>, n: nat): set<Tag>
    requires n <= |members|
  {
    if n == 0 then {}
    else
      GroupTagsOf(env, c, members, n - 1)
      + (if members[n - 1].GroupMember? then GroupTagsBelow(env, c, n - 1, members[n - 1].id) else {})
  }

  // ---------------------------------------------------------------- what a compiled chain's selectors list

  /** A selector stands for a group of the chain, here for one that was not rewritten, and nothing else does. */
  predicate PlainSelector(env: Env, c: Id, o: Outbound) {
    && (o.Selector? <==> o.tag.ChainGroup?)
    && (o.Selector? ==> o.tag.chain == c && o.members == MemberTags(AllMembers(env, c, o.tag.index, o.tag.group)))
  }

  ghost predicate AllPlain(env: Env, c: Id, outs: seq<Outbound>) {
    forall o :: o in outs ==> PlainSelector(env, c, o)
  }

  lemma {:induction false} GroupNodesAddNodes(env: Env, c: Id, i: nat, nodes: seq<Id>, k: nat, detour: Option<Tag>,
                                              st: State)
    requires AllPlain(env, c, st.outs)
    ensures var r := BuildGroupNodes(env, c, i, nodes, k, detour, st);
            r.BuiltAll? ==> AllPlain(env, c, r.st.outs) && r.tags == NodeTagsFrom(c, i, nodes, k)
    decreases |nodes| - k
  {
    if k < |nodes| {
      var r := BuildNode(env, nodes[k], Tag.GroupNode(c, i, k, nodes[k]), detour, st);
      if r.Built? {
        GroupNodesAddNodes(env, c, i, nodes, k + 1, detour, r.st);
      }
    }
  }

  lemma {:induction false} TerminalNodesAddNodes(env: Env, c: Id, i: nat, nodes: seq<Id>, k: nat, final: Id,
                                                 detour: Option<Tag>, st: State)
    requires AllPlain(env, c, st.outs)
    ensures var r := BuildTerminalNodes(env, c, i, nodes, k, final, detour, st);
            r.BuiltAll? ==> AllPlain(env, c, r.st.outs)
    decreases |nodes| - k
  {
    if k < |nodes| {
      var r1 := BuildNode(env, nodes[k], Tag.GroupNode(c, i, k, nodes[k]), detour, st);
      if r1.Built? {
        var r2 := BuildNode(env, final, Tag.Terminal(c, i, k, final), Some(r1.tag), r1.st);
        if r2.Built? {
          TerminalNodesAddNodes(env, c, i, nodes, k + 1, final, detour, r2.st);
        }
      }
    }
  }

  lemma {:induction false} GroupAddsPlain(env: Env, c: Id, i: nat, g: Id, detour: Option<Tag>, st: State,
                                          visiting: set<Id>)
    requires g in env.db.groups && AllPlain(env, c, st.outs)
    ensures var r := BuildGroup(env, c, i, g, detour, st, visiting);
            r.Built? ==> AllPlain(env, c, r.st.outs) && r.tag == Tag.ChainGroup(c, i, g)
    decreases |env.db.groups.Keys - visiting|, 0, 0
  {
    if g !in visiting && Tag.ChainGroup(c, i, g) !in st.tags {
      GroupNodesAddNodes(env, c, i, GroupNodes(env, g), 0, detour, st);
      var r1 := BuildGroupNodes(env, c, i, GroupNodes(env, g), 0, detour, st);
      if r1.BuiltAll? {
        SubsetShrinks(env.db.groups.Keys, visiting, g);
        KnownContents(Unique(env.db.groups[g].groupIds), env.db.groups.Keys);
        ChildrenAddPlain(env, c, i, ChildGroups(env, g), detour, r1.st, visiting + {g});
        var r2 := BuildChildren(env, c, i, ChildGroups(env, g), detour, r1.st, visiting + {g});
        if r2.BuiltAll? {
          OneMorePlain(env, c, i, g, r2.st.outs);
        }
      }
    }
  }

  lemma OneMorePlain(env: Env, c: Id, i: nat, g: Id, outs: seq<Outbound>)
    requires AllPlain(env, c, outs)
    ensures AllPlain(env, c, outs + [Selector(Tag.ChainGroup(c, i, g), MemberTags(AllMembers(env, c, i, g)))])
  {
  }

  lemma {:induction false} ChildrenAddPlain(env: Env, c: Id, i: nat, children: seq<Id>, detour: Option<Tag>, st: State,
                                            visiting: set<Id>)
    requires (forall x :: x in children ==> x in env.db.groups) && AllPlain(env, c, st.outs)
    ensures var r := BuildChildren(env, c, i, children, detour, st, visiting);
            r.BuiltAll? ==> AllPlain(env, c, r.st.outs) && r.tags == ChildTags(c, i, children)
    decreases |env.db.groups.Keys - visiting|, 1, |children|
  {
    if |children| > 0 {
      GroupAddsPlain(env, c, i, children[0], detour, st, visiting);
      var r := BuildGroup(env, c, i, children[0], detour, st, visiting);
      if r.Built? {
        ChildrenAddPlain(env, c, i, children[1..], detour, r.st, visiting);
      }
    }
  }

  lemma MemberAddsPlain(env: Env, c: Id, i: nat, m: Member, detour: Option<Tag>, st: State)
    requires AllPlain(env, c, st.outs)
    ensures var r := BuildMember(env, c, i, m, detour, st);
            r.Built? ==> AllPlain(env, c, r.st.outs)
  {
    if m.GroupMember? && m.id in env.db.groups {
      GroupAddsPlain(env, c, i, m.id, detour, st, {});
    }
  }

  // ---------------------------------------------------------------- identifiers of a plain group's members

  /** Row identifiers are as the service draws them, and a query lists every row once. */
  ghost predicate CleanRows(env: Env) {
    && Distinct(env.order)
    && forall x :: x in env.db.nodes || x in env.db.groups ==> CleanRow(x)
  }

  predicate CleanRow(x: Id) {
    CleanId(x) && '\n' !in x && x != "direct" && x != "block"
  }

  lemma {:induction false} GroupedDistinct(env: Env, g: Id, rows: seq<Id>, listed: seq<Id>)
    requires Distinct(rows)
    ensures Distinct(Grouped(env, g, rows, listed))
    ensures forall n :: n in Grouped(env, g, rows, listed) ==> n in rows && n !in listed && n in env.db.nodes
  {
    if |rows| > 0 {
      GroupedDistinct(env, g, rows[1..], listed);
      assert rows == [rows[0]] + rows[1..];
      assert rows[0] !in rows[1..];
    }
  }

  lemma {:induction false} KnownDistinct(values: seq<Id>, known: set<Id>)
    requires Distinct(values)
    ensures Distinct(Known(values, known))
    ensures forall x :: x in Known(values, known) ==> x in values
  {
    if |values| > 0 {
      KnownDistinct(values[1..], known);
      assert values[0] !in values[1..];
    }
  }

  lemma GroupNodesDistinct(env: Env, g: Id)
    requires Distinct(env.order)
    ensures Distinct(GroupNodes(env, g)) && forall n :: n in GroupNodes(env, g) ==> n in env.db.nodes
  {
    if g in env.db.groups {
      var ids := Unique(env.db.groups[g].nodeIds);
      UniqueContents(env.db.groups[g].nodeIds);
      KnownDistinct(ids, env.db.nodes.Keys);
      KnownContents(ids, env.db.nodes.Keys);
      var listed := Known(ids, env.db.nodes.Keys);
      GroupedDistinct(env, g, env.order, listed);
      DistinctAppend(listed, Grouped(env, g, env.order, listed));
    }
  }

  lemma DistinctAppend(a: seq<Id>, b: seq<Id>)
    requires Distinct(a) && Distinct(b) && forall x :: x in b ==> x !in a
    ensures Distinct(a + b)
  {
    forall i, j | 0 <= i < j < |a + b|
      ensures (a + b)[i] != (a + b)[j]
    {
      if i < |a| <= j {
        assert a[i] in a && b[j - |a|] in b;
      }
    }
  }

  lemma {:induction false} UniqueTagsDiffer(tags: seq<Tag>)
    ensures forall i, j :: 0 <= i < j < |UniqueTags(tags)| ==> UniqueTags(tags)[i] != UniqueTags(tags)[j]
  {
    if |tags| > 0 {
      UniqueTagsDiffer(tags[..|tags| - 1]);
    }
  }

  lemma PlainPrint(t: Tag)
    requires (t.GroupNode? || t.ChainGroup?) && '\n' !in t.chain
    requires '\n' !in if t.GroupNode? then t.node else t.group
    ensures '\n' !in Print(t) && '-' in Print(t)
  {
    DigitsOnly(t.index);
    assert '\n' !in TwoDigits(t.index);
    if t.GroupNode? {
      DigitsOnly(t.member);
      assert '\n' !in TwoDigits(t.member);
    }
    assert Print(t)[..5] == "node-";
    assert Print(t)[4] == Print(t)[..5][4];
  }

  /** What a plain group may list, with the rows behind it. */
  predicate Listable(env: Env, c: Id, i: nat, g: Id, t: Tag) {
    match t
    case Direct => true
    case Block => true
    case GroupNode(d, j, m, n) => d == c && j == i && m < |GroupNodes(env, g)| && n == GroupNodes(env, g)[m]
    case ChainGroup(d, j, x) => d == c && j == i && x in env.db.groups
    case _ => false
  }

  lemma ListableRow(env: Env, c: Id, i: nat, g: Id, t: Tag)
    requires CleanRows(env) && Listable(env, c, i, g, t)
    ensures t.GroupNode? ==> CleanRow(t.node)
    ensures t.ChainGroup? ==> CleanRow(t.group)
  {
    GroupNodesDistinct(env, g);
    if t.GroupNode? {
      assert t.node in GroupNodes(env, g);
    }
  }

  lemma ListableId(env: Env, c: Id, i: nat, g: Id, t: Tag)
    requires CleanRows(env) && CleanRow(c) && Listable(env, c, i, g, t)
    ensures OfferId(env, t) == if t.GroupNode? then t.node else Print(t)
  {
    ListableRow(env, c, i, g, t);
    if t.GroupNode? || t.ChainGroup? {
      PlainPrint(t);
      ParserInvertsPrinterIff(t);
    }
  }

  lemma ListableDiffer(env: Env, c: Id, i: nat, g: Id, a: Tag, b: Tag)
    requires CleanRows(env) && CleanRow(c) && Listable(env, c, i, g, a) && Listable(env, c, i, g, b) && a != b
    ensures OfferId(env, a) != OfferId(env, b)
  {
    ListableId(env, c, i, g, a);
    ListableId(env, c, i, g, b);
    ListableRow(env, c, i, g, a);
    ListableRow(env, c, i, g, b);
    GroupNodesDistinct(env, g);
    if !a.GroupNode? && !b.GroupNode? {
      if Print(a) == Print(b) {
        PrintersAreInjective(a, b);
      }
    } else if a.ChainGroup? {
      PlainPrint(a);
    } else if b.ChainGroup? {
      PlainPrint(b);
    }
  }

  lemma PlainMembersDiffer(env: Env, c: Id, i: nat, g: Id)
    requires CleanRows(env) && CleanRow(c)
    ensures DifferentIds(env, MemberTags(AllMembers(env, c, i, g)))
  {
    var all := AllMembers(env, c, i, g);
    var tags := MemberTags(all);
    ExitTagsContents(Exits(env, g));
    NodeTagsContents(c, i, GroupNodes(env, g), 0);
    ChildTagsContents(c, i, ChildGroups(env, g));
    if g in env.db.groups {
      KnownContents(Unique(env.db.groups[g].groupIds), env.db.groups.Keys);
    }
    UniqueTagsContents(all);
    UniqueTagsDiffer(all);
    forall t | t in tags
      ensures Listable(env, c, i, g, t)
    {
    }
    forall x, y | 0 <= x < y < |tags|
      ensures OfferId(env, tags[x]) != OfferId(env, tags[y])
    {
      ListableDiffer(env, c, i, g, tags[x], tags[y]);
    }
  }

  /** Balancers of plain groups offer all that the selectors did. */
  lemma PlainStays(env: Env, c: Id, handed: set<Tag>, outs: seq<Outbound>)
    requires CleanRows(env) && CleanRow(c) && AllPlain(env, c, outs)
    ensures Handed(env, handed, outs) == outs
  {
    forall i | 0 <= i < |outs|
      ensures HandOver(env, handed, outs[i]) == outs[i]
    {
      var o := outs[i];
      assert PlainSelector(env, c, o);
      if o.Selector? && o.tag in handed {
        PlainMembersDiffer(env, c, o.tag.index, o.tag.group);
        AllOffered(env, o.members);
      }
    }
  }

  // ---------------------------------------------------------------- the rewritten group at the end of a chain

  /** The chain ends in a group and a node to which the terminal rewrite applies. */
  predicate Rewrites(env: Env, members: seq<Member>) {
    && |members| >= 2 && EndsInGroupNode(members, |members| - 2)
    && Rewritable(env, members[|members| - 2].id, members[|members| - 1].id)
  }

  /** The build ends with the selector of the rewritten group. */
  ghost predicate EndsRewritten(env: Env, c: Id, members: seq<Member>, r: Step) {
    && |members| >= 2 && r.Built? && r.last == None && |r.st.outs| > 0
    && var k, pre, o := |members| - 2, r.st.outs[..|r.st.outs| - 1], r.st.outs[|r.st.outs| - 1];
    && r.tag == o.tag && AllPlain(env, c, pre)
    && RewrittenAt(env, c, members, k, pre, o)
  }

  ghost predicate RewrittenAt(env: Env, c: Id, members: seq<Member>, k: nat, pre: seq<Outbound>, o: Outbound) {
    exists before, detour :: RewrittenSelector(env, c, members, k, detour, before, pre, o)
  }

  lemma TerminalShape(env: Env, c: Id, members: seq<Member>, k: nat, tags0: set<Tag>, prev: Step)
    requires k < |members| && Reached(env, c, members, k, tags0, prev) && EndsInGroupNode(members, k)
    requires AllPlain(env, c, prev.st.outs)
    ensures var t := BuildTerminal(env, c, k, members[k].id, members[k + 1].id, DetourAt(k, prev), prev.st);
            && (t.Handled? && t.step.Built? ==> Rewrites(env, members) && EndsRewritten(env, c, members, t.step))
            && (Rewrites(env, members) ==> t.Handled?)
  {
    var g, final, detour := members[k].id, members[k + 1].id, DetourAt(k, prev);
    EnterLevel(env, c, members, k, tags0, prev);
    assert ChainOf(Tag.ChainGroup(c, k, g)) == Some(c) && LevelOf(Tag.ChainGroup(c, k, g)) == k;
    TerminalOutcome(env, c, k, g, final, detour, prev.st);
    if Rewritable(env, g, final) {
      var nodes := GroupNodes(env, g);
      StartRewriting(c, k, nodes, final, detour, prev.st.outs);
      RewriteNodes(env, c, k, tags0, nodes, 0, final, detour, prev.st);
      TerminalNodesAddNodes(env, c, k, nodes, 0, final, detour, prev.st);
      var r := BuildTerminalNodes(env, c, k, nodes, 0, final, detour, prev.st);
      if r.BuiltAll? {
        EmitRewritten(env, c, k, tags0, nodes, final, detour, g, r.st);
        var o := Selector(Tag.ChainGroup(c, k, g), UniqueTags(FinalTags(c, k, |nodes|, 0, final)));
        assert RewrittenSelector(env, c, members, k, detour, prev.st.outs, r.st.outs, o);
        assert (r.st.outs + [o])[..|r.st.outs|] == r.st.outs;
      }
    }
  }

  /** What the attempt at a terminal rewrite says about the members. */
  lemma TriedShape(env: Env, c: Id, members: seq<Member>, k: nat, tags0: set<Tag>, prev: Step)
    requires k < |members| && Reached(env, c, members, k, tags0, prev) && AllPlain(env, c, prev.st.outs)
    ensures var t := TryTerminal(env, c, members, k, DetourAt(k, prev), prev.st, true);
            && (t.Handled? && t.step.Built? ==> Shape(env, c, members, k, t.step))
            && (t.Declined? ==> !(Rewrites(env, members) && k == |members| - 2))
  {
    if EndsInGroupNode(members, k) {
      TerminalShape(env, c, members, k, tags0, prev);
    }
  }

  lemma {:induction false} MembersShape(env: Env, c: Id, members: seq<Member>, k: nat, tags0: set<Tag>, prev: Step)
    requires k <= |members| && Reached(env, c, members, k, tags0, prev) && "" !in env.db.groups
    requires AllPlain(env, c, prev.st.outs) && BuildMembers(env, c, members, k, prev, true).Built?
    ensures Shape(env, c, members, k, BuildMembers(env, c, members, k, prev, true))
    decreases |members| - k, 1
  {
    if k < |members| {
      var detour := DetourAt(k, prev);
      TriedShape(env, c, members, k, tags0, prev);
      if TryTerminal(env, c, members, k, detour, prev.st, true).Declined? {
        var next := BuildMember(env, c, k, members[k], detour, prev.st);
        MemberStep(env, c, members, k, tags0, prev);
        MemberAddsPlain(env, c, k, members[k], detour, prev.st);
        ShapeOfRest(env, c, members, k, tags0, prev, next);
      }
    }
  }

  /** What a build from member k on ends with. */
  ghost predicate Shape(env: Env, c: Id, members: seq<Member>, k: nat, r: Step) {
    r.Built? &&
    if Rewrites(env, members) && k <= |members| - 2 then EndsRewritten(env, c, members, r)
    else AllPlain(env, c, r.st.outs)
  }

  lemma {:induction false} ShapeOfRest(env: Env, c: Id, members: seq<Member>, k: nat, tags0: set<Tag>, prev: Step,
                                       next: Step)
    requires k < |members| && prev.Built? && "" !in env.db.groups
    requires TryTerminal(env, c, members, k, DetourAt(k, prev), prev.st, true).Declined?
    requires next == BuildMember(env, c, k, members[k], DetourAt(k, prev), prev.st)
    requires next.Built? ==> Reached(env, c, members, k + 1, tags0, next) && AllPlain(env, c, next.st.outs)
    requires BuildMembers(env, c, members, k, prev, true).Built? && !(Rewrites(env, members) && k == |members| - 2)
    ensures Shape(env, c, members, k, BuildMembers(env, c, members, k, prev, true))
    decreases |members| - k, 0
  {
    assert BuildMembers(env, c, members, k, prev, true) == BuildMembers(env, c, members, k + 1, next, true);
    MembersShape(env, c, members, k + 1, tags0, next);
  }

  lemma {:induction false} FinalTagsAt(c: Id, i: nat, n: nat, k: nat, final: Id)
    requires k <= n
    ensures |FinalTags(c, i, n, k, final)| == n - k
    ensures forall j :: 0 <= j < n - k ==> FinalTags(c, i, n, k, final)[j] == Tag.Terminal(c, i, k + j, final)
    decreases n - k
  {
    if k < n {
      FinalTagsAt(c, i, n, k + 1, final);
    }
  }

  lemma {:induction false} UniqueTagsOfDifferent(tags: seq<Tag>)
    requires forall i, j :: 0 <= i < j < |tags| ==> tags[i] != tags[j]
    ensures UniqueTags(tags) == tags
  {
    if |tags| > 0 {
      var init := tags[..|tags| - 1];
      assert tags == init + [tags[|tags| - 1]];
      UniqueTagsOfDifferent(init);
    }
  }

  lemma TerminalTags(c: Id, i: nat, n: nat, final: Id)
    ensures var tags := UniqueTags(FinalTags(c, i, n, 0, final));
            |tags| == n && forall j :: 0 <= j < n ==> tags[j] == Tag.Terminal(c, i, j, final)
  {
    FinalTagsAt(c, i, n, 0, final);
    UniqueTagsOfDifferent(FinalTags(c, i, n, 0, final));
  }

  lemma TerminalOfferId(env: Env, c: Id, members: seq<Member>, m: nat)
    requires CleanRows(env) && c in env.db.nodes && members == MembersOfChain(env, c) && Rewrites(env, members)
    requires m < |GroupNodes(env, members[|members| - 2].id)|
    ensures var k, final := |members| - 2, members[|members| - 1].id;
            OfferId(env, Tag.Terminal(c, k, m, final)) ==
            if k < 100 && m < 100 then GroupNodes(env, members[k].id)[m] else final
  {
    var k, final := |members| - 2, members[|members| - 1].id;
    var nodes := GroupNodes(env, members[k].id);
    var t := Tag.Terminal(c, k, m, final);
    GroupNodesDistinct(env, members[k].id);
    assert nodes[m] in nodes && CleanRow(nodes[m]) && CleanRow(final) && CleanRow(c);
    PrintHasNoLineFeed(t);
    ParserInvertsPrinterIff(t);
    assert GroupNodeAt(env, c, k, m) == nodes[m];
  }

  lemma KeptWithIds(env: Env, tags: seq<Tag>, ids: seq<Id>)
    requires |ids| == |tags| && Distinct(ids) && forall j :: 0 <= j < |tags| ==> ids[j] == OfferId(env, tags[j])
    ensures OfferedTags(Balancer(env, tags)) == tags
  {
    forall i, j | 0 <= i < j < |tags|
      ensures OfferId(env, tags[i]) != OfferId(env, tags[j])
    {
      assert ids[i] != ids[j];
    }
    AllOffered(env, tags);
  }

  /** The balancer of a rewritten group keeps every member, or loses one. */
  lemma RewrittenOffers(env: Env, c: Id, members: seq<Member>) returns (lost: nat)
    requires CleanRows(env) && c in env.db.nodes && members == MembersOfChain(env, c) && Rewrites(env, members)
    ensures var k, final := |members| - 2, members[|members| - 1].id;
            var nodes := GroupNodes(env, members[k].id);
            var tags := UniqueTags(FinalTags(c, k, |nodes|, 0, final));
            if KeepsAll(k, final, nodes) then OfferedTags(Balancer(env, tags)) == tags
            else lost < |nodes| && Tag.Terminal(c, k, lost, final) !in OfferedTags(Balancer(env, tags))
  {
    var k, final := |members| - 2, members[|members| - 1].id;
    var nodes := GroupNodes(env, members[k].id);
    var tags := UniqueTags(FinalTags(c, k, |nodes|, 0, final));
    TerminalTags(c, k, |nodes|, final);
    var ids := seq(|nodes|, j requires 0 <= j < |nodes| => OfferId(env, tags[j]));
    forall j | 0 <= j < |nodes|
      ensures ids[j] == if k < 100 && j < 100 then nodes[j] else final
    {
      TerminalOfferId(env, c, members, j);
    }
    GroupNodesDistinct(env, members[k].id);
    assert "" !in nodes && final != "";
    lost := OffersByIds(env, k, final, nodes, tags, ids);
  }

  lemma OffersByIds(env: Env, k: nat, final: Id, nodes: seq<Id>, tags: seq<Tag>, ids: seq<Id>) returns (lost: nat)
    requires |tags| == |nodes| == |ids| && Distinct(nodes) && "" !in nodes && final != ""
    requires forall i, j :: 0 <= i < j < |tags| ==> tags[i] != tags[j]
    requires forall j :: 0 <= j < |ids| ==> ids[j] == OfferId(env, tags[j])
    requires forall j :: 0 <= j < |ids| ==> ids[j] == if k < 100 && j < 100 then nodes[j] else final
    ensures if KeepsAll(k, final, nodes) then OfferedTags(Balancer(env, tags)) == tags
            else lost < |tags| && tags[lost] !in OfferedTags(Balancer(env, tags))
  {
    lost := 0;
    if KeepsAll(k, final, nodes) {
      AllDifferent(k, final, nodes, ids);
      KeptWithIds(env, tags, ids);
    } else {
      var i, j := TwoAlike(k, final, nodes, ids);
      SecondIsLost(env, tags, i, j);
      lost := j;
    }
  }

  // ---------------------------------------------------------------- the main result

  lemma {:induction false} HandedTagsAreGroups(env: Env, c: Id, members: seq<Member>, n: nat)
    requires n <= |members|
    ensures forall t :: t in GroupTagsOf(env, c, members, n) ==> t.ChainGroup?
    ensures forall k :: 0 <= k < n && members[k].GroupMember? && members[k].id in env.db.groups ==>
              Tag.ChainGroup(c, k, members[k].id) in GroupTagsOf(env, c, members, n)
  {
    if n > 0 {
      HandedTagsAreGroups(env, c, members, n - 1);
      if members[n - 1].GroupMember? && members[n - 1].id in env.db.groups {
        ReachesSelf(GraphOf(env.db.groups), members[n - 1].id);
      }
    }
  }

  lemma HandedAppend(env: Env, handed: set<Tag>, outs: seq<Outbound>, o: Outbound)
    ensures Handed(env, handed, outs + [o]) == Handed(env, handed, outs) + [HandOver(env, handed, o)]
  {
  }

  /** Every group of the chain loses nobody: the rewritten group is small enough for its tags to be told apart, or
      nothing can be dialled before it anyway. */
  ghost predicate HandsOverAll(env: Env, members: seq<Member>) {
    Rewrites(env, members) ==>
      var k := |members| - 2;
      || KeepsAll(k, members[k + 1].id, GroupNodes(env, members[k].id))
      || !exists x :: ChainHops(env, members, k, x)
  }

  ghost function ChainOuts(env: Env, c: Id, tags0: set<Tag>): seq<Outbound>
    requires Compiled(env, c, tags0, true)
  {
    BuildChain(env, c, State([], tags0), true).st.outs
  }

  /** The compiled chain with balancers for all groups at or below its members. */
  ghost function Balanced(env: Env, c: Id, tags0: set<Tag>): seq<Outbound>
    requires Compiled(env, c, tags0, true)
  {
    Handed(env, GroupTagsOf(env, c, MembersOfChain(env, c), |MembersOfChain(env, c)|), ChainOuts(env, c, tags0))
  }

  /** pre and the rewritten group's selector, offering what p offers, and the chain's alias. */
  function Ending(c: Id, pre: seq<Outbound>, p: Outbound): seq<Outbound> {
    pre + [p] + [Selector(NodeTag(c), [p.tag])]
  }

  ghost predicate Narrowed(env: Env, c: Id, members: seq<Member>, k: nat, pre: seq<Outbound>, o: Outbound,
                           p: Outbound) {
    && k + 2 == |members| && RewrittenAt(env, c, members, k, pre, o) && Ordered(Ending(c, pre, p))
    && p.Selector? && forall t :: t in p.members ==> t in o.members
  }

  lemma CompiledMembers(env: Env, c: Id, tags0: set<Tag>) returns (r: Step, outs: seq<Outbound>)
    requires Compiled(env, c, tags0, true)
    ensures r.Built?
    ensures var members := MembersOfChain(env, c);
            if Rewrites(env, members) then EndsRewritten(env, c, members, r) else AllPlain(env, c, r.st.outs)
    ensures outs == ChainOuts(env, c, tags0) == r.st.outs + [Alias(NodeTag(c), r.tag, r.last)] && Ordered(outs)
  {
    var members := MembersOfChain(env, c);
    var start := Built(State([], tags0), Direct, None);
    StartOfChain(env, c, members, tags0);
    r := BuildMembers(env, c, members, 0, start, true);
    outs := ChainOuts(env, c, tags0);
    MembersShape(env, c, members, 0, tags0, start);
    MembersResult(env, c, members, 0, tags0, start, true);
    assert NodeTag(c) !in r.st.tags;
    ChainCompilesIff(env, c, tags0, true);
  }

  /** outs ends with the rewritten group's selector o and the alias; pre lists plain groups only. */
  ghost predicate Shaped(env: Env, c: Id, members: seq<Member>, outs: seq<Outbound>, pre: seq<Outbound>, o: Outbound) {
    && outs == Ending(c, pre, o) && Ordered(outs) && AllPlain(env, c, pre)
    && |members| >= 2 && RewrittenAt(env, c, members, |members| - 2, pre, o)
  }

  lemma CompiledShape(env: Env, c: Id, tags0: set<Tag>) returns (outs: seq<Outbound>, pre: seq<Outbound>, o: Outbound)
    requires Compiled(env, c, tags0, true) && Rewrites(env, MembersOfChain(env, c))
    ensures outs == ChainOuts(env, c, tags0) && Shaped(env, c, MembersOfChain(env, c), outs, pre, o)
  {
    var r;
    r, outs := CompiledMembers(env, c, tags0);
    pre, o := EndingOf(env, c, MembersOfChain(env, c), r, outs);
  }

  lemma EndingOf(env: Env, c: Id, members: seq<Member>, r: Step, outs: seq<Outbound>)
    returns (pre: seq<Outbound>, o: Outbound)
    requires EndsRewritten(env, c, members, r) && outs == r.st.outs + [Alias(NodeTag(c), r.tag, r.last)]
    requires Ordered(outs)
    ensures Shaped(env, c, members, outs, pre, o)
  {
    pre, o := r.st.outs[..|r.st.outs| - 1], r.st.outs[|r.st.outs| - 1];
    AliasBehindLast(c, r.st.outs);
  }

  lemma AliasBehindLast(c: Id, outs: seq<Outbound>)
    requires |outs| > 0
    ensures var o := outs[|outs| - 1];
            outs + [Selector(NodeTag(c), [o.tag])] == Ending(c, outs[..|outs| - 1], o)
  {
    assert outs == outs[..|outs| - 1] + [outs[|outs| - 1]];
  }

  lemma EndingParts(c: Id, pre: seq<Outbound>, o: Outbound)
    requires Ordered(Ending(c, pre, o)) && o.Selector?
    ensures Ordered(pre) && o.tag !in TagsOf(pre) && NodeTag(c) !in TagsOf(pre) && o.tag != NodeTag(c)
            && !Builtin(o.tag)
    ensures forall t :: t in o.members && !Builtin(t) ==> t in TagsOf(pre)
  {
    var outs := Ending(c, pre, o);
    assert pre <= outs && outs[|pre|] == o && outs[|pre| + 1] == Selector(NodeTag(c), [o.tag]);
    OrderedPrefix(pre, outs);
    forall x | x in pre
      ensures x.tag != o.tag && x.tag != NodeTag(c)
    {
      var i :| 0 <= i < |pre| && pre[i] == x;
      assert outs[i] == x;
    }
    forall t | t in o.members && !Builtin(t)
      ensures t in TagsOf(pre)
    {
      assert t in Targets(outs[|pre|]);
      var j :| 0 <= j < |pre| && outs[j].tag == t;
      assert pre[j] in pre;
    }
  }

  lemma NarrowedIsOrdered(c: Id, pre: seq<Outbound>, o: Outbound, p: Outbound)
    requires Ordered(Ending(c, pre, o)) && o.Selector? && p.Selector? && p.tag == o.tag
    requires forall t :: t in p.members ==> t in o.members
    ensures Ordered(Ending(c, pre, p))
  {
    EndingParts(c, pre, o);
    OrderedAppend(pre, p);
    OrderedAppend(pre + [p], Selector(NodeTag(c), [o.tag]));
  }

  lemma BalancedEnding(env: Env, c: Id, tags0: set<Tag>, pre: seq<Outbound>, o: Outbound)
    requires Compiled(env, c, tags0, true) && CleanRows(env) && AllPlain(env, c, pre)
    requires Rewrites(env, MembersOfChain(env, c)) && o.Selector?
    requires o.tag == Tag.ChainGroup(c, |MembersOfChain(env, c)| - 2,
                                     MembersOfChain(env, c)[|MembersOfChain(env, c)| - 2].id)
    requires ChainOuts(env, c, tags0) == Ending(c, pre, o)
    ensures Balanced(env, c, tags0) == Ending(c, pre, Selector(o.tag, OfferedTags(Balancer(env, o.members))))
  {
    var members := MembersOfChain(env, c);
    var handed := GroupTagsOf(env, c, members, |members|);
    HandedTagsAreGroups(env, c, members, |members|);
    HandedAppend(env, handed, pre + [o], Selector(NodeTag(c), [o.tag]));
    HandedAppend(env, handed, pre, o);
    PlainStays(env, c, handed, pre);
  }

  lemma NarrowedForwards(env: Env, c: Id, members: seq<Member>, k: nat, pre: seq<Outbound>, o: Outbound, p: Outbound,
                         h: seq<Id>) returns (t: Tag)
    requires Narrowed(env, c, members, k, pre, o, p) && Routes(Ending(c, pre, p), NodeTag(c), h)
    ensures t in p.members && Routes(Ending(c, pre, p), t, h)
  {
    var all, alias := Ending(c, pre, p), Selector(NodeTag(c), [p.tag]);
    assert alias == all[|all| - 1] && p == all[|pre|];
    SelectorForwards(all, alias, h);
    SelectorForwards(all, p, h);
    t :| t in p.members && Routes(all, t, h);
  }

  lemma OfferedRoute(env: Env, c: Id, members: seq<Member>, k: nat, pre: seq<Outbound>, o: Outbound,
                     all: seq<Outbound>, t: Tag, h: seq<Id>)
    requires RewrittenAt(env, c, members, k, pre, o) && pre <= all && Ordered(all)
    requires t in o.members && Routes(all, t, h)
    ensures t.Terminal? && t == Tag.Terminal(c, k, t.member, members[k + 1].id)
    ensures var nodes := GroupNodes(env, members[k].id);
            && t.member < |nodes| && EndsWith(h, members[k + 1].id) && EndsWith(Init(h), nodes[t.member])
            && ChainHops(env, members, k, Init(Init(h)))
  {
    var before, detour :| RewrittenSelector(env, c, members, k, detour, before, pre, o);
    var nodes, final := GroupNodes(env, members[k].id), members[k + 1].id;
    SelectorTags(env, c, k, nodes, final);
    RewrittenNodeRoutes(c, k, nodes, t.member, final, detour, pre, all, h);
    BeforeStable(before, all, detour, Init(Init(h)));
    assert Before(before, detour, Init(Init(h))) <==> ChainHops(env, members, k, Init(Init(h)));
  }

  /** What is left of the routes: those through a member that the balancer offers. */
  lemma NarrowedRoute(env: Env, c: Id, members: seq<Member>, k: nat, pre: seq<Outbound>, o: Outbound, p: Outbound,
                      h: seq<Id>) returns (m: nat)
    requires Narrowed(env, c, members, k, pre, o, p) && Routes(Ending(c, pre, p), NodeTag(c), h)
    ensures m < |GroupNodes(env, members[k].id)| && Tag.Terminal(c, k, m, members[k + 1].id) in p.members
    ensures EndsWith(Init(h), GroupNodes(env, members[k].id)[m]) && ChainHops(env, members, k, Init(Init(h)))
    ensures EndsWith(h, members[k + 1].id)
  {
    var t := NarrowedForwards(env, c, members, k, pre, o, p, h);
    OfferedRoute(env, c, members, k, pre, o, Ending(c, pre, p), t, h);
    m := t.member;
  }

  /** A lost member takes a route with it, if anything can be dialled before the group. */
  lemma LostRoute(env: Env, c: Id, members: seq<Member>, k: nat, pre: seq<Outbound>, o: Outbound, p: Outbound,
                  lost: nat, x: seq<Id>) returns (h: seq<Id>)
    requires Narrowed(env, c, members, k, pre, o, p) && Rewrites(env, members) && ChainHops(env, members, k, x)
    requires Distinct(GroupNodes(env, members[k].id)) && lost < |GroupNodes(env, members[k].id)|
    requires Tag.Terminal(c, k, lost, members[k + 1].id) !in p.members
    ensures ChainHops(env, members, |members|, h) && !Routes(Ending(c, pre, p), NodeTag(c), h)
  {
    var nodes := GroupNodes(env, members[k].id);
    h := x + [nodes[lost]] + [members[k + 1].id];
    assert Init(h) == x + [nodes[lost]] && Init(Init(h)) == x;
    LeafThenNodeHops(env, members, k, h);
    if Routes(Ending(c, pre, p), NodeTag(c), h) {
      var m := NarrowedRoute(env, c, members, k, pre, o, p, h);
    }
  }

  /** Every route, handed over or not, dials something before the rewritten group. */
  lemma RouteHasBefore(env: Env, c: Id, members: seq<Member>, k: nat, pre: seq<Outbound>, o: Outbound, p: Outbound,
                       h: seq<Id>)
    requires Narrowed(env, c, members, k, pre, o, p) && Rewrites(env, members)
    requires ChainHops(env, members, k + 2, h) || Routes(Ending(c, pre, p), NodeTag(c), h)
    ensures ChainHops(env, members, k, Init(Init(h)))
  {
    if Routes(Ending(c, pre, p), NodeTag(c), h) {
      var m := NarrowedRoute(env, c, members, k, pre, o, p, h);
    } else {
      LeafThenNodeHops(env, members, k, h);
    }
  }

  lemma RouteHasHops(env: Env, c: Id, members: seq<Member>, k: nat, pre: seq<Outbound>, o: Outbound, p: Outbound,
                     h: seq<Id>)
    requires Narrowed(env, c, members, k, pre, o, p) && Rewrites(env, members)
    requires Routes(Ending(c, pre, p), NodeTag(c), h)
    ensures ChainHops(env, members, |members|, h)
  {
    var m := NarrowedRoute(env, c, members, k, pre, o, p, h);
    HopsOfRoute(env, members, k, h, m);
  }

  lemma HopsOfRoute(env: Env, members: seq<Member>, k: nat, h: seq<Id>, m: nat)
    requires k + 2 == |members| && Rewrites(env, members) && m < |GroupNodes(env, members[k].id)|
    requires EndsWith(h, members[k + 1].id) && EndsWith(Init(h), GroupNodes(env, members[k].id)[m])
    requires ChainHops(env, members, k, Init(Init(h)))
    ensures ChainHops(env, members, |members|, h)
  {
    var nodes := GroupNodes(env, members[k].id);
    assert nodes[m] in nodes;
    LeafThenNodeHops(env, members, k, h);
  }

  lemma NarrowedKeepsIff(env: Env, c: Id, members: seq<Member>, k: nat, pre: seq<Outbound>, o: Outbound, p: Outbound,
                         lost: nat)
    requires Narrowed(env, c, members, k, pre, o, p) && Rewrites(env, members) && o.Selector? && p.tag == o.tag
    requires forall h :: Routes(Ending(c, pre, o), NodeTag(c), h) <==> ChainHops(env, members, |members|, h)
    requires var nodes := GroupNodes(env, members[k].id);
             && Distinct(nodes)
             && if KeepsAll(k, members[k + 1].id, nodes) then p.members == o.members
                else lost < |nodes| && Tag.Terminal(c, k, lost, members[k + 1].id) !in p.members
    ensures (forall h :: Routes(Ending(c, pre, p), NodeTag(c), h) <==> Routes(Ending(c, pre, o), NodeTag(c), h))
            <==> HandsOverAll(env, members)
    ensures forall h :: Routes(Ending(c, pre, p), NodeTag(c), h) ==> Routes(Ending(c, pre, o), NodeTag(c), h)
  {
    forall h | Routes(Ending(c, pre, p), NodeTag(c), h)
      ensures Routes(Ending(c, pre, o), NodeTag(c), h)
    {
      RouteHasHops(env, c, members, k, pre, o, p, h);
    }
    if KeepsAll(k, members[k + 1].id, GroupNodes(env, members[k].id)) {
      assert p == o;
    } else if x :| ChainHops(env, members, k, x) {
      var h := LostRoute(env, c, members, k, pre, o, p, lost, x);
    } else {
      forall h
        ensures Routes(Ending(c, pre, p), NodeTag(c), h) <==> Routes(Ending(c, pre, o), NodeTag(c), h)
      {
        if ChainHops(env, members, |members|, h) || Routes(Ending(c, pre, p), NodeTag(c), h) {
          RouteHasBefore(env, c, members, k, pre, o, p, h);
        }
      }
    }
  }

  lemma PlainChainStays(env: Env, c: Id, tags0: set<Tag>)
    requires Compiled(env, c, tags0, true) && CleanRows(env) && !Rewrites(env, MembersOfChain(env, c))
    ensures Balanced(env, c, tags0) == ChainOuts(env, c, tags0)
  {
    var members := MembersOfChain(env, c);
    var handed := GroupTagsOf(env, c, members, |members|);
    var r, _ := CompiledMembers(env, c, tags0);
    PlainStays(env, c, handed, r.st.outs);
    HandedTagsAreGroups(env, c, members, |members|);
    HandedAppend(env, handed, r.st.outs, Alias(NodeTag(c), r.tag, r.last));
  }

  lemma RewrittenChainKeepsIff(env: Env, c: Id, tags0: set<Tag>)
    requires Compiled(env, c, tags0, true) && CleanRows(env) && Rewrites(env, MembersOfChain(env, c))
    ensures (forall h ::
               Routes(Balanced(env, c, tags0), NodeTag(c), h) <==> Routes(ChainOuts(env, c, tags0), NodeTag(c), h))
            <==> HandsOverAll(env, MembersOfChain(env, c))
    ensures forall h ::
              Routes(Balanced(env, c, tags0), NodeTag(c), h) ==> Routes(ChainOuts(env, c, tags0), NodeTag(c), h)
  {
    var members := MembersOfChain(env, c);
    var k := |members| - 2;
    var outs, pre, o := CompiledShape(env, c, tags0);
    var before, detour :| RewrittenSelector(env, c, members, k, detour, before, pre, o);
    var p := Selector(o.tag, OfferedTags(Balancer(env, o.members)));
    BalancerIds(env, o.members);
    NarrowedIsOrdered(c, pre, o, p);
    BalancedEnding(env, c, tags0, pre, o);
    var lost := RewrittenOffers(env, c, members);
    GroupNodesDistinct(env, members[k].id);
    forall h
      ensures Routes(Ending(c, pre, o), NodeTag(c), h) <==> ChainHops(env, members, |members|, h)
    {
      ChainMeansItsMembers(env, c, tags0, true, h);
    }
    NarrowedKeepsIff(env, c, members, k, pre, o, p, lost);
  }

  /** Handing the groups of a compiled chain to balancers keeps all its routes exactly when no member of the
      rewritten group is lost, or nothing could be dialled before that group anyway. */
  lemma BalancersKeepRoutesIff(env: Env, c: Id, tags0: set<Tag>)
    requires Compiled(env, c, tags0, true) && CleanRows(env)
    ensures (forall h :: Routes(Balanced(env, c, tags0), NodeTag(c), h) <==> Leaves(env, c, tags0, true, h))
            <==> HandsOverAll(env, MembersOfChain(env, c))
  {
    if Rewrites(env, MembersOfChain(env, c)) {
      RewrittenChainKeepsIff(env, c, tags0);
    } else {
      PlainChainStays(env, c, tags0);
    }
  }

  /** A balancer never adds a route. */
  lemma BalancersAddNoRoute(env: Env, c: Id, tags0: set<Tag>, h: seq<Id>)
    requires Compiled(env, c, tags0, true) && CleanRows(env) && Routes(Balanced(env, c, tags0), NodeTag(c), h)
    ensures Leaves(env, c, tags0, true, h)
  {
    var members := MembersOfChain(env, c);
    if Rewrites(env, members) {
      RewrittenChainKeepsIff(env, c, tags0);
    } else {
      PlainChainStays(env, c, tags0);
    }
  }

  // ---------------------------------------------------------------- a chain that loses routes

  /** Chain c over group g and node f; g lists the given nodes. */
  function WideTables(nodes: seq<Id>): Env {
    Env(Db((map n | n in SetOf(nodes) :: NodeRow(false, [], ""))
           + map["c" := NodeRow(true, [GroupMember("g"), NodeMember("f")], ""), "f" := NodeRow(false, [], "")],
           map["g" := GroupRow(false, nodes, [])], map[]),
        [], SetOf(nodes) + {"f"}, map[])
  }

  ghost predicate Wide(nodes: seq<Id>) {
    |nodes| > 101 && Distinct(nodes) && forall n :: n in nodes ==> CleanRow(n) && n != "c" && n != "f"
  }

  lemma {:induction false} KnownAll(values: seq<Id>, known: set<Id>)
    requires forall v :: v in values ==> v in known
    ensures Known(values, known) == values
  {
    if |values| > 0 {
      assert values[0] in values;
      KnownAll(values[1..], known);
      assert values == [values[0]] + values[1..];
    }
  }

  lemma WideNodes(nodes: seq<Id>)
    requires Wide(nodes)
    ensures GroupNodes(WideTables(nodes), "g") == nodes
  {
    var env := WideTables(nodes);
    UniqueOfNormal(nodes);
    assert forall n :: n in nodes ==> n in SetOf(nodes);
    KnownAll(nodes, env.db.nodes.Keys);
    assert Grouped(env, "g", [], nodes) == [];
  }

  lemma WideRows(nodes: seq<Id>, n: Id)
    requires Wide(nodes) && (n in nodes || n == "f")
    ensures Plain(WideTables(nodes), n) && n in WideTables(nodes).buildable
  {
    assert n in nodes ==> n in SetOf(nodes);
  }

  lemma WideGroup(nodes: seq<Id>)
    requires Wide(nodes)
    ensures GroupFine(WideTables(nodes), "g")
  {
    var env := WideTables(nodes);
    LeafGroup(env, "g");
    WideNodes(nodes);
    forall n | Offers(env, "g", n)
      ensures Plain(env, n) && n in env.buildable
    {
      WideRows(nodes, n);
    }
  }

  lemma WideMembers(nodes: seq<Id>)
    ensures MembersOfChain(WideTables(nodes), "c") == [GroupMember("g"), NodeMember("f")]
  {
    var m := [GroupMember("g"), NodeMember("f")];
    assert m[..1] == [GroupMember("g")] && m[..1][..0] == [];
    assert NormalMembers(m[..1]) == [GroupMember("g")];
  }

  lemma WideFine(nodes: seq<Id>)
    requires Wide(nodes)
    ensures ChainFine(WideTables(nodes), [GroupMember("g"), NodeMember("f")])
  {
    WideGroup(nodes);
    WideRows(nodes, "f");
  }

  lemma WideClean(nodes: seq<Id>)
    requires Wide(nodes)
    ensures CleanRows(WideTables(nodes))
  {
  }

  lemma WideCompiles(nodes: seq<Id>)
    requires Wide(nodes)
    ensures Compiled(WideTables(nodes), "c", {}, true)
  {
    WideFine(nodes);
    WideMembers(nodes);
    ChainCompilesIff(WideTables(nodes), "c", {}, true);
  }

  lemma WideIsNotHandedOver(env: Env, members: seq<Member>)
    requires members == [GroupMember("g"), NodeMember("f")] && Rewrites(env, members) && |GroupNodes(env, "g")| > 101
    ensures !HandsOverAll(env, members)
  {
    assert ChainHops(env, members, 0, []);
  }

  lemma WideRewrites(nodes: seq<Id>)
    requires Wide(nodes)
    ensures Rewrites(WideTables(nodes), [GroupMember("g"), NodeMember("f")])
  {
    WideNodes(nodes);
    WideRows(nodes, "f");
  }

  /** A chain over a large group compiles, and some traffic that it lets through passes no balancer. */
  lemma WideChainLosesRoute(nodes: seq<Id>) returns (h: seq<Id>)
    requires Wide(nodes)
    ensures Compiled(WideTables(nodes), "c", {}, true) && Leaves(WideTables(nodes), "c", {}, true, h)
    ensures !Routes(Balanced(WideTables(nodes), "c", {}), NodeTag("c"), h)
  {
    var env := WideTables(nodes);
    WideCompiles(nodes);
    WideClean(nodes);
    WideNodes(nodes);
    WideMembers(nodes);
    WideRewrites(nodes);
    WideIsNotHandedOver(env, MembersOfChain(env, "c"));
    h := SomeRouteLost(env, "c", {});
  }

  lemma SomeRouteLost(env: Env, c: Id, tags0: set<Tag>) returns (h: seq<Id>)
    requires Compiled(env, c, tags0, true) && CleanRows(env) && !HandsOverAll(env, MembersOfChain(env, c))
    ensures Leaves(env, c, tags0, true, h) && !Routes(Balanced(env, c, tags0), NodeTag(c), h)
  {
    BalancersKeepRoutesIff(env, c, tags0);
    h :| Routes(Balanced(env, c, tags0), NodeTag(c), h) != Leaves(env, c, tags0, true, h);
    if Routes(Balanced(env, c, tags0), NodeTag(c), h) {
      BalancersAddNoRoute(env, c, tags0, h);
    }
  }

  lemma NumbersAreClean(n: nat)
    ensures CleanRow(Decimal(n)) && Decimal(n) != "c" && Decimal(n) != "f"
  {
    DecimalNotEmpty(n);
    DigitsOnly(n);
    assert IsDigit(Decimal(n)[0]);
    assert !IsDigit("direct"[0]) && !IsDigit("block"[0]) && !IsDigit("c"[0]) && !IsDigit("f"[0]);
  }

  /** So it is with 102 nodes. */
  lemma LargeChainLosesRoute() returns (h: seq<Id>)
    ensures Compiled(WideTables(ManyNodes()), "c", {}, true) && Leaves(WideTables(ManyNodes()), "c", {}, true, h)
    ensures !Routes(Balanced(WideTables(ManyNodes()), "c", {}), NodeTag("c"), h)
  {
    LargeGroupLosesMember();
    forall n | n in ManyNodes()
      ensures CleanRow(n) && n != "c" && n != "f"
    {
      var i :| 0 <= i < |ManyNodes()| && ManyNodes()[i] == n;
      NumbersAreClean(i);
    }
    h := WideChainLosesRoute(ManyNodes());
  }
}
