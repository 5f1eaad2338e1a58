/** What a compiled chain means: the hop sequences reached from its tag are one node per member, in
    order, and the compiler succeeds exactly on well-formed chains. */
module ChainMeaning {
  import opened Wrappers
  import opened Ids
  import opened GroupGraph
  import opened ConfigModel
  import opened TagCodec
  import opened Outbounds
  import opened ChainCompiler

  // ---------------------------------------------------------------- the intended meaning

  /** Node n can be picked when group g is dialled: it sits in g or in a group below it. */
  ghost predicate Offers(env: Env, g: Id, n: Id) {
    exists x :: Reaches(GraphOf(env.db.groups), g, x) && n in GroupNodes(env, x)
  }

  /** A direct exit is offered by g or by a group below it. */
  ghost predicate OffersDirect(env: Env, g: Id) {
    exists x :: Reaches(GraphOf(env.db.groups), g, x) && DirectExit in Exits(env, x)
  }

  function Init(h: seq<Id>): seq<Id> {
    if |h| == 0 then [] else h[..|h| - 1]
  }

  predicate EndsWith(h: seq<Id>, n: Id) {
    |h| > 0 && h[|h| - 1] == n
  }

  /** The hop sequences of the first k members: each node member adds itself, each group member one of
      the nodes it offers; a direct exit starts afresh. */
  ghost predicate ChainHops(env: Env, members: seq<Member>, k: nat, h: seq<Id>)
    requires k <= |members|
    decreases k
  {
    if k == 0 then h == []
    else
      match members[k - 1]
      case NodeMember(n) => EndsWith(h, n) && ChainHops(env, members, k - 1, Init(h))
      case GroupMember(g) =>
        || (h == [] && OffersDirect(env, g))
        || (|h| > 0 && Offers(env, g, h[|h| - 1]) && ChainHops(env, members, k - 1, Init(h)))
  }

  // ---------------------------------------------------------------- invariants of a build

  function ChainOf(t: Tag): Option<Id> {
    match t
    case ChainNode(c, _, _) => Some(c)
    case ChainGroup(c, _, _) => Some(c)
    case GroupNode(c, _, _, _) => Some(c)
    case Terminal(c, _, _, _) => Some(c)
    case _ => None
  }

  function LevelOf(t: Tag): nat {
    match t
    case ChainNode(_, i, _) => i
    case ChainGroup(_, i, _) => i
    case GroupNode(_, i, _, _) => i
    case Terminal(_, i, _, _) => i
    case _ => 0
  }

  /** tags0 were taken before the build and none of them belongs to chain c. */
  ghost predicate Base(c: Id, tags0: set<Tag>, st: State) {
    && Ordered(st.outs)
    && st.tags == tags0 + TagsOf(st.outs)
    && (forall t :: t in TagsOf(st.outs) ==> ChainOf(t) == Some(c))
    && (forall t :: t in tags0 ==> ChainOf(t) != Some(c))
  }

  ghost predicate DetourOk(outs: seq<Outbound>, detour: Option<Tag>) {
    detour.None? || detour.value in TagsOf(outs)
  }

  /** What lies before the outbound being built. */
  ghost predicate Before(outs: seq<Outbound>, detour: Option<Tag>, h: seq<Id>) {
    if detour.None? then h == [] else Routes(outs, detour.value, h)
  }

  ghost predicate GroupHops(env: Env, g: Id, outs: seq<Outbound>, detour: Option<Tag>, h: seq<Id>) {
    || (h == [] && OffersDirect(env, g))
    || (|h| > 0 && Offers(env, g, h[|h| - 1]) && Before(outs, detour, Init(h)))
  }

  ghost predicate GroupTagMeans(env: Env, t: Tag, g: Id, outs: seq<Outbound>, detour: Option<Tag>) {
    forall h :: Routes(outs, t, h) <==> GroupHops(env, g, outs, detour, h)
  }

  ghost function Tagged(c: Id, i: nat, outs: seq<Outbound>): set<Id> {
    set t | t in TagsOf(outs) && t.ChainGroup? && t.chain == c && t.index == i :: t.group
  }

  ghost predicate PlainGroup(env: Env, g: Id) {
    forall n :: n in GroupNodes(env, g) ==> Plain(env, n) && n in env.buildable
  }

  /** While member i is being built: every tag made for it means what it should. */
  ghost predicate Level(env: Env, c: Id, i: nat, detour: Option<Tag>, outs: seq<Outbound>) {
    && DetourOk(outs, detour)
    && (forall t :: t in TagsOf(outs) ==> LevelOf(t) <= i)
    && (forall m, n :: Tag.GroupNode(c, i, m, n) in TagsOf(outs) ==>
          NodeOut(Tag.GroupNode(c, i, m, n), n, detour) in outs)
    && (forall g :: g in Tagged(c, i, outs) ==>
          g in env.db.groups && PlainGroup(env, g) && GroupTagMeans(env, Tag.ChainGroup(c, i, g), g, outs, detour))
    && Settled(GraphOf(env.db.groups), Tagged(c, i, outs))
  }

  lemma TaggedTag(c: Id, i: nat, outs: seq<Outbound>, g: Id)
    ensures g in Tagged(c, i, outs) <==> Tag.ChainGroup(c, i, g) in TagsOf(outs)
  {
    if Tag.ChainGroup(c, i, g) in TagsOf(outs) {
      assert Tag.ChainGroup(c, i, g).group in Tagged(c, i, outs);
    }
  }

  // ---------------------------------------------------------------- stability

  lemma BeforeStable(a: seq<Outbound>, b: seq<Outbound>, detour: Option<Tag>, h: seq<Id>)
    requires a <= b && Ordered(b) && DetourOk(a, detour)
    ensures Before(a, detour, h) <==> Before(b, detour, h)
  {
    if detour.Some? {
      RoutesStable(a, b, detour.value, h);
    }
  }

  lemma GroupTagStable(env: Env, t: Tag, g: Id, a: seq<Outbound>, b: seq<Outbound>, detour: Option<Tag>)
    requires a <= b && Ordered(b) && DetourOk(a, detour) && t in TagsOf(a)
    requires GroupTagMeans(env, t, g, a, detour)
    ensures GroupTagMeans(env, t, g, b, detour)
  {
    forall h
      ensures Routes(b, t, h) <==> GroupHops(env, g, b, detour, h)
    {
      RoutesStable(a, b, t, h);
      BeforeStable(a, b, detour, Init(h));
    }
  }

  lemma EmitBase(c: Id, tags0: set<Tag>, st: State, o: Outbound)
    requires Base(c, tags0, st) && o.tag !in st.tags && ChainOf(o.tag) == Some(c)
    requires forall t :: t in Targets(o) ==> Builtin(t) || t in TagsOf(st.outs)
    ensures Base(c, tags0, Emit(st, o))
    ensures TagsOf(Emit(st, o).outs) == TagsOf(st.outs) + {o.tag}
  {
    OrderedAppend(st.outs, o);
  }

  /** Emitting an outbound that is not a group tag of this level keeps the level. */
  lemma EmitLevel(env: Env, c: Id, i: nat, detour: Option<Tag>, outs: seq<Outbound>, o: Outbound)
    requires Level(env, c, i, detour, outs) && Ordered(outs + [o])
    requires TagsOf(outs + [o]) == TagsOf(outs) + {o.tag}
    requires LevelOf(o.tag) <= i && !o.tag.ChainGroup?
    requires o.tag.GroupNode? && o.tag.chain == c && o.tag.index == i ==> o == NodeOut(o.tag, o.tag.node, detour)
    ensures Level(env, c, i, detour, outs + [o])
    ensures Tagged(c, i, outs + [o]) == Tagged(c, i, outs)
  {
    var all := outs + [o];
    assert o in all;
    forall g
      ensures g in Tagged(c, i, all) <==> g in Tagged(c, i, outs)
    {
      TaggedTag(c, i, all, g);
      TaggedTag(c, i, outs, g);
    }
    assert Tagged(c, i, all) == Tagged(c, i, outs);
    forall g | g in Tagged(c, i, all)
      ensures GroupTagMeans(env, Tag.ChainGroup(c, i, g), g, all, detour)
    {
      TaggedTag(c, i, outs, g);
      GroupTagStable(env, Tag.ChainGroup(c, i, g), g, outs, all, detour);
    }
    forall m, n | Tag.GroupNode(c, i, m, n) in TagsOf(all)
      ensures NodeOut(Tag.GroupNode(c, i, m, n), n, detour) in all
    {
      if Tag.GroupNode(c, i, m, n) in TagsOf(outs) {
        assert NodeOut(Tag.GroupNode(c, i, m, n), n, detour) in outs;
      }
    }
  }

  // ---------------------------------------------------------------- group nodes

  function NodeTagsFrom(c: Id, i: nat, nodes: seq<Id>, k: nat): seq<Tag>
    decreases |nodes| - k
  {
    if k >= |nodes| then [] else [Tag.GroupNode(c, i, k, nodes[k])] + NodeTagsFrom(c, i, nodes, k + 1)
  }

  lemma {:induction false} NodeTagsContents(c: Id, i: nat, nodes: seq<Id>, k: nat)
    ensures forall t :: t in NodeTagsFrom(c, i, nodes, k) <==>
                        exists j :: k <= j < |nodes| && t == Tag.GroupNode(c, i, j, nodes[j])
    decreases |nodes| - k
  {
    if k < |nodes| {
      NodeTagsContents(c, i, nodes, k + 1);
      var rest := NodeTagsFrom(c, i, nodes, k + 1);
      forall t
        ensures t in [Tag.GroupNode(c, i, k, nodes[k])] + rest <==>
                  exists j :: k <= j < |nodes| && t == Tag.GroupNode(c, i, j, nodes[j])
      {
        assert t in [Tag.GroupNode(c, i, k, nodes[k])] + rest <==> t == Tag.GroupNode(c, i, k, nodes[k]) || t in rest;
      }
    }
  }

  lemma BuildNodeLevel(env: Env, c: Id, i: nat, tags0: set<Tag>, n: Id, m: nat, detour: Option<Tag>, st: State)
    requires Base(c, tags0, st) && Level(env, c, i, detour, st.outs)
    requires Plain(env, n)
    ensures var r := BuildNode(env, n, Tag.GroupNode(c, i, m, n), detour, st);
            && (r.Failed? ==> n !in env.buildable)
            && (r.Built? ==>
              && r.tag == Tag.GroupNode(c, i, m, n) && r.tag in TagsOf(r.st.outs)
              && st.outs <= r.st.outs && Base(c, tags0, r.st) && Level(env, c, i, detour, r.st.outs)
              && Tagged(c, i, r.st.outs) == Tagged(c, i, st.outs))
  {
    var tag := Tag.GroupNode(c, i, m, n);
    if tag !in st.tags && n in env.buildable {
      var o := NodeOut(tag, n, detour);
      EmitBase(c, tags0, st, o);
      EmitLevel(env, c, i, detour, st.outs, o);
      assert o in Emit(st, o).outs;
    }
  }

  /** A node behind a tag that is already there was buildable when it was made. */
  ghost predicate BuiltBefore(env: Env, st: State) {
    forall o :: o in st.outs && o.NodeOut? ==> o.node in env.buildable
  }

  lemma {:induction false} BuildGroupNodesLevel(env: Env, c: Id, i: nat, tags0: set<Tag>, nodes: seq<Id>, k: nat,
                                                detour: Option<Tag>, st: State)
    requires Base(c, tags0, st) && Level(env, c, i, detour, st.outs) && BuiltBefore(env, st)
    ensures var r := BuildGroupNodes(env, c, i, nodes, k, detour, st);
            r.BuiltAll? ==>
              && st.outs <= r.st.outs && Base(c, tags0, r.st) && Level(env, c, i, detour, r.st.outs)
                 && BuiltBefore(env, r.st)
              && Tagged(c, i, r.st.outs) == Tagged(c, i, st.outs)
              && r.tags == NodeTagsFrom(c, i, nodes, k)
              && (forall j :: k <= j < |nodes| ==>
                    Plain(env, nodes[j]) && nodes[j] in env.buildable
                      && Tag.GroupNode(c, i, j, nodes[j]) in TagsOf(r.st.outs))
    decreases |nodes| - k
  {
    if k < |nodes| && Plain(env, nodes[k]) {
      BuildNodeLevel(env, c, i, tags0, nodes[k], k, detour, st);
      var tag := Tag.GroupNode(c, i, k, nodes[k]);
      if tag in st.tags {
        assert tag in TagsOf(st.outs);
        assert NodeOut(tag, nodes[k], detour) in st.outs;
      }
      var r := BuildNode(env, nodes[k], tag, detour, st);
      if r.Built? {
        BuildGroupNodesLevel(env, c, i, tags0, nodes, k + 1, detour, r.st);
      }
    }
  }

  // ---------------------------------------------------------------- groups

  function ChildTags(c: Id, i: nat, children: seq<Id>): seq<Tag> {
    if |children| == 0 then [] else [Tag.ChainGroup(c, i, children[0])] + ChildTags(c, i, children[1..])
  }

  lemma {:induction false} ChildTagsContents(c: Id, i: nat, children: seq<Id>)
    ensures forall t :: t in ChildTags(c, i, children) <==>
              t.ChainGroup? && t.chain == c && t.index == i && t.group in children
  {
    if |children| > 0 {
      ChildTagsContents(c, i, children[1..]);
      assert children == [children[0]] + children[1..];
    }
  }

  lemma {:induction false} ExitTagsContents(exits: seq<Exit>)
    ensures forall t :: t in ExitTags(exits) ==> Builtin(t)
    ensures Direct in ExitTags(exits) <==> DirectExit in exits
  {
    if |exits| > 0 {
      ExitTagsContents(exits[1..]);
      assert exits == [exits[0]] + exits[1..];
    }
  }

  /** Everything a group's selector may list, before repeats are dropped. */
  function AllMembers(env: Env, c: Id, i: nat, g: Id): seq<Tag> {
    ExitTags(Exits(env, g)) + NodeTagsFrom(c, i, GroupNodes(env, g), 0) + ChildTags(c, i, ChildGroups(env, g))
  }

  ghost predicate PartsReady(env: Env, c: Id, i: nat, g: Id, outs: seq<Outbound>) {
    && g in env.db.groups
    && (forall j :: 0 <= j < |GroupNodes(env, g)| ==> Tag.GroupNode(c, i, j, GroupNodes(env, g)[j]) in TagsOf(outs))
    && (forall x :: x in ChildGroups(env, g) ==> x in Tagged(c, i, outs))
  }

  lemma ChildIsEdge(env: Env, g: Id, x: Id)
    requires "" !in env.db.groups
    ensures x in ChildGroups(env, g) <==> Edge(GraphOf(env.db.groups), g, x)
  {
    if g in env.db.groups {
      UniqueContents(env.db.groups[g].groupIds);
      KnownContents(Unique(env.db.groups[g].groupIds), env.db.groups.Keys);
    }
  }

  lemma NodeMemberHops(env: Env, c: Id, i: nat, g: Id, detour: Option<Tag>, outs: seq<Outbound>, j: nat, h: seq<Id>)
    requires Ordered(outs) && Level(env, c, i, detour, outs) && PartsReady(env, c, i, g, outs)
             && j < |GroupNodes(env, g)|
    ensures Routes(outs, Tag.GroupNode(c, i, j, GroupNodes(env, g)[j]), h)
            <==> EndsWith(h, GroupNodes(env, g)[j]) && Before(outs, detour, Init(h))
  {
    var n := GroupNodes(env, g)[j];
    var o := NodeOut(Tag.GroupNode(c, i, j, n), n, detour);
    assert o in outs;
    RoutesNode(outs, o, h);
    if detour.None? {
      assert h == [n] <==> EndsWith(h, n) && Init(h) == [];
    }
  }

  /** A route through any listed member is one of the group's hop sequences. */
  lemma MemberHopsAreGroupHops(env: Env, c: Id, i: nat, g: Id, detour: Option<Tag>, outs: seq<Outbound>, t: Tag,
                               h: seq<Id>)
    requires Ordered(outs) && Level(env, c, i, detour, outs) && PartsReady(env, c, i, g, outs) && "" !in env.db.groups
    requires t == Block || t in AllMembers(env, c, i, g)
    requires Routes(outs, t, h)
    ensures GroupHops(env, g, outs, detour, h)
  {
    var gr := GraphOf(env.db.groups);
    ExitTagsContents(Exits(env, g));
    NodeTagsContents(c, i, GroupNodes(env, g), 0);
    ChildTagsContents(c, i, ChildGroups(env, g));
    RoutesBuiltin(outs, h);
    ReachesSelf(gr, g);
    if t.ChainGroup? {
      var x := t.group;
      ChildIsEdge(env, g, x);
      assert GroupTagMeans(env, t, x, outs, detour);
      if h == [] && OffersDirect(env, x) {
        var y :| Reaches(gr, x, y) && DirectExit in Exits(env, y);
        ReachesStep(gr, g, x, y);
      } else {
        var y :| Reaches(gr, x, y) && h[|h| - 1] in GroupNodes(env, y);
        ReachesStep(gr, g, x, y);
      }
    } else if t.GroupNode? {
      NodeMemberHops(env, c, i, g, detour, outs, t.member, h);
    }
  }

  /** Each of the group's hop sequences is a route through some listed member. */
  lemma GroupHopsHaveMember(env: Env, c: Id, i: nat, g: Id, detour: Option<Tag>, outs: seq<Outbound>, h: seq<Id>)
    returns (t: Tag)
    requires Ordered(outs) && Level(env, c, i, detour, outs) && PartsReady(env, c, i, g, outs) && "" !in env.db.groups
    requires GroupHops(env, g, outs, detour, h)
    ensures t in AllMembers(env, c, i, g) && Routes(outs, t, h)
  {
    var gr := GraphOf(env.db.groups);
    ExitTagsContents(Exits(env, g));
    NodeTagsContents(c, i, GroupNodes(env, g), 0);
    ChildTagsContents(c, i, ChildGroups(env, g));
    RoutesBuiltin(outs, h);
    var x: Id;
    if h == [] && OffersDirect(env, g) {
      x :| Reaches(gr, g, x) && DirectExit in Exits(env, x);
      if x == g {
        t := Direct;
        return;
      }
    } else {
      x :| Reaches(gr, g, x) && h[|h| - 1] in GroupNodes(env, x);
      if x == g {
        var j :| 0 <= j < |GroupNodes(env, g)| && GroupNodes(env, g)[j] == h[|h| - 1];
        NodeMemberHops(env, c, i, g, detour, outs, j, h);
        t := Tag.GroupNode(c, i, j, h[|h| - 1]);
        return;
      }
    }
    var y := ReachesFirst(gr, g, x);
    ChildIsEdge(env, g, y);
    t := Tag.ChainGroup(c, i, y);
    assert GroupTagMeans(env, t, y, outs, detour);
    assert GroupHops(env, y, outs, detour, h);
  }

  lemma SelectorMeans(env: Env, c: Id, i: nat, g: Id, detour: Option<Tag>, outs: seq<Outbound>, o: Outbound)
    requires Level(env, c, i, detour, outs) && PartsReady(env, c, i, g, outs) && "" !in env.db.groups
    requires o == Selector(Tag.ChainGroup(c, i, g), MemberTags(AllMembers(env, c, i, g)))
    requires Ordered(outs + [o])
    requires forall t :: t in AllMembers(env, c, i, g) ==> Builtin(t) || t in TagsOf(outs)
    ensures GroupTagMeans(env, o.tag, g, outs + [o], detour)
  {
    var all := outs + [o];
    OrderedPrefix(outs, all);
    UniqueTagsContents(AllMembers(env, c, i, g));
    assert o in all;
    forall h
      ensures Routes(all, o.tag, h) <==> GroupHops(env, g, all, detour, h)
    {
      RoutesSelector(all, o, h);
      BeforeStable(outs, all, detour, Init(h));
      if Routes(all, o.tag, h) {
        var t :| t in o.members && Routes(all, t, h);
        RoutesStable(outs, all, t, h);
        MemberHopsAreGroupHops(env, c, i, g, detour, outs, t, h);
      }
      if GroupHops(env, g, all, detour, h) {
        var t := GroupHopsHaveMember(env, c, i, g, detour, outs, h);
        RoutesStable(outs, all, t, h);
        assert t in o.members;
      }
    }
  }

  lemma AllMembersReady(env: Env, c: Id, i: nat, g: Id, outs: seq<Outbound>)
    requires PartsReady(env, c, i, g, outs)
    ensures forall t :: t in AllMembers(env, c, i, g) ==> Builtin(t) || t in TagsOf(outs)
  {
    ExitTagsContents(Exits(env, g));
    NodeTagsContents(c, i, GroupNodes(env, g), 0);
    ChildTagsContents(c, i, ChildGroups(env, g));
    forall x | x in ChildGroups(env, g)
      ensures Tag.ChainGroup(c, i, x) in TagsOf(outs)
    {
      TaggedTag(c, i, outs, x);
    }
  }

  /** Emitting a group's selector closes that group. */
  lemma EmitGroup(env: Env, c: Id, i: nat, g: Id, tags0: set<Tag>, detour: Option<Tag>, st: State)
    requires Base(c, tags0, st) && Level(env, c, i, detour, st.outs) && PartsReady(env, c, i, g, st.outs)
    requires "" !in env.db.groups && PlainGroup(env, g) && Tag.ChainGroup(c, i, g) !in st.tags
             && g !in Tagged(c, i, st.outs)
    ensures var e := Emit(st, Selector(Tag.ChainGroup(c, i, g), MemberTags(AllMembers(env, c, i, g))));
            && Base(c, tags0, e) && Level(env, c, i, detour, e.outs)
            && Tagged(c, i, e.outs) == Tagged(c, i, st.outs) + {g} && Tag.ChainGroup(c, i, g) in TagsOf(e.outs)
  {
    var o := Selector(Tag.ChainGroup(c, i, g), MemberTags(AllMembers(env, c, i, g)));
    var all := st.outs + [o];
    AllMembersReady(env, c, i, g, st.outs);
    UniqueTagsContents(AllMembers(env, c, i, g));
    EmitBase(c, tags0, st, o);
    SelectorMeans(env, c, i, g, detour, st.outs, o);
    forall x
      ensures x in Tagged(c, i, all) <==> x in Tagged(c, i, st.outs) || x == g
    {
      TaggedTag(c, i, all, x);
      TaggedTag(c, i, st.outs, x);
    }
    assert Tagged(c, i, all) == Tagged(c, i, st.outs) + {g};
    forall x | Edge(GraphOf(env.db.groups), g, x)
      ensures x in Tagged(c, i, st.outs)
    {
      ChildIsEdge(env, g, x);
    }
    SettleOne(GraphOf(env.db.groups), Tagged(c, i, st.outs), g);
    EmitGroupKeepsMeanings(env, c, i, g, detour, st.outs, o);
  }

  lemma EmitGroupKeepsMeanings(env: Env, c: Id, i: nat, g: Id, detour: Option<Tag>, outs: seq<Outbound>, o: Outbound)
    requires Level(env, c, i, detour, outs) && Ordered(outs + [o]) && TagsOf(outs + [o]) == TagsOf(outs) + {o.tag}
    requires o.tag == Tag.ChainGroup(c, i, g) && g in env.db.groups && PlainGroup(env, g)
    requires GroupTagMeans(env, o.tag, g, outs + [o], detour)
    requires Tagged(c, i, outs + [o]) == Tagged(c, i, outs) + {g}
    requires Settled(GraphOf(env.db.groups), Tagged(c, i, outs) + {g})
    ensures Level(env, c, i, detour, outs + [o])
  {
    var all := outs + [o];
    forall x | x in Tagged(c, i, all)
      ensures x in env.db.groups && PlainGroup(env, x) && GroupTagMeans(env, Tag.ChainGroup(c, i, x), x, all, detour)
    {
      if x != g {
        TaggedTag(c, i, outs, x);
        GroupTagStable(env, Tag.ChainGroup(c, i, x), x, outs, all, detour);
      }
    }
    forall m, n | Tag.GroupNode(c, i, m, n) in TagsOf(all)
      ensures NodeOut(Tag.GroupNode(c, i, m, n), n, detour) in all
    {
      assert Tag.GroupNode(c, i, m, n) in TagsOf(outs);
      assert NodeOut(Tag.GroupNode(c, i, m, n), n, detour) in outs;
    }
  }

  /** What a successful group build establishes. */
  ghost predicate GroupBuilt(env: Env, c: Id, i: nat, tags0: set<Tag>, detour: Option<Tag>, st: State, r: State,
                             visiting: set<Id>) {
    && st.outs <= r.outs && Base(c, tags0, r) && Level(env, c, i, detour, r.outs) && BuiltBefore(env, r)
    && Tagged(c, i, st.outs) <= Tagged(c, i, r.outs) && visiting !! Tagged(c, i, r.outs)
  }

  lemma {:induction false} BuildGroupLevel(env: Env, c: Id, i: nat, g: Id, tags0: set<Tag>, detour: Option<Tag>,
                                           st: State, visiting: set<Id>)
    requires Base(c, tags0, st) && Level(env, c, i, detour, st.outs) && BuiltBefore(env, st)
    requires g in env.db.groups && "" !in env.db.groups && visiting !! Tagged(c, i, st.outs)
    ensures var r := BuildGroup(env, c, i, g, detour, st, visiting);
            r.Built? ==>
              && GroupBuilt(env, c, i, tags0, detour, st, r.st, visiting)
              && r.tag == Tag.ChainGroup(c, i, g) && g in Tagged(c, i, r.st.outs) && r.last == None
    decreases |env.db.groups.Keys - visiting|, 0, 0
  {
    var tag := Tag.ChainGroup(c, i, g);
    TaggedTag(c, i, st.outs, g);
    if g !in visiting && tag !in st.tags {
      var r1 := BuildGroupNodes(env, c, i, GroupNodes(env, g), 0, detour, st);
      BuildGroupNodesLevel(env, c, i, tags0, GroupNodes(env, g), 0, detour, st);
      if r1.BuiltAll? {
        SubsetShrinks(env.db.groups.Keys, visiting, g);
        KnownContents(Unique(env.db.groups[g].groupIds), env.db.groups.Keys);
        BuildChildrenLevel(env, c, i, ChildGroups(env, g), tags0, detour, r1.st, visiting + {g});
        var r2 := BuildChildren(env, c, i, ChildGroups(env, g), detour, r1.st, visiting + {g});
        if r2.BuiltAll? {
          FinishGroup(env, c, i, g, tags0, detour, st, r1.st, r2.st, visiting);
        }
      }
    }
  }

  lemma FinishGroup(env: Env, c: Id, i: nat, g: Id, tags0: set<Tag>, detour: Option<Tag>, st: State, st1: State,
                    st2: State, visiting: set<Id>)
    requires Base(c, tags0, st2) && Level(env, c, i, detour, st2.outs) && BuiltBefore(env, st2)
    requires st.outs <= st1.outs <= st2.outs
    requires g in env.db.groups && "" !in env.db.groups && g !in visiting && visiting + {g} !! Tagged(c, i, st2.outs)
    requires Tagged(c, i, st.outs) <= Tagged(c, i, st2.outs)
    requires forall j :: 0 <= j < |GroupNodes(env, g)| ==>
               && Plain(env, GroupNodes(env, g)[j]) && GroupNodes(env, g)[j] in env.buildable
               && Tag.GroupNode(c, i, j, GroupNodes(env, g)[j]) in TagsOf(st1.outs)
    requires forall x :: x in ChildGroups(env, g) ==> x in Tagged(c, i, st2.outs)
    ensures var e := Emit(st2, Selector(Tag.ChainGroup(c, i, g), MemberTags(AllMembers(env, c, i, g))));
            GroupBuilt(env, c, i, tags0, detour, st, e, visiting) && g in Tagged(c, i, e.outs)
  {
    TaggedTag(c, i, st2.outs, g);
    assert PartsReady(env, c, i, g, st2.outs) by {
      forall j | 0 <= j < |GroupNodes(env, g)|
        ensures Tag.GroupNode(c, i, j, GroupNodes(env, g)[j]) in TagsOf(st2.outs)
      {
        TagsGrow(st1.outs, st2.outs, Tag.GroupNode(c, i, j, GroupNodes(env, g)[j]));
      }
    }
    assert Tag.ChainGroup(c, i, g) !in st2.tags;
    EmitGroup(env, c, i, g, tags0, detour, st2);
  }

  lemma TagsGrow(a: seq<Outbound>, b: seq<Outbound>, t: Tag)
    requires a <= b && t in TagsOf(a)
    ensures t in TagsOf(b)
  {
    var o :| o in a && o.tag == t;
    assert o in b;
  }

  lemma {:induction false} BuildChildrenLevel(env: Env, c: Id, i: nat, children: seq<Id>, tags0: set<Tag>,
                                              detour: Option<Tag>, st: State, visiting: set<Id>)
    requires Base(c, tags0, st) && Level(env, c, i, detour, st.outs) && BuiltBefore(env, st)
    requires (forall x :: x in children ==> x in env.db.groups) && "" !in env.db.groups
             && visiting !! Tagged(c, i, st.outs)
    ensures var r := BuildChildren(env, c, i, children, detour, st, visiting);
            r.BuiltAll? ==>
              && GroupBuilt(env, c, i, tags0, detour, st, r.st, visiting)
              && r.tags == ChildTags(c, i, children)
              && forall x :: x in children ==> x in Tagged(c, i, r.st.outs)
    decreases |env.db.groups.Keys - visiting|, 1, |children|
  {
    if |children| > 0 {
      BuildGroupLevel(env, c, i, children[0], tags0, detour, st, visiting);
      var r := BuildGroup(env, c, i, children[0], detour, st, visiting);
      if r.Built? {
        BuildChildrenLevel(env, c, i, children[1..], tags0, detour, r.st, visiting);
        assert children == [children[0]] + children[1..];
      }
    }
  }
}
