/** The main results about compiled chains. */
module ChainTheorems {
  import opened Wrappers
  import opened Ids
  import opened GroupGraph
  import opened ConfigModel
  import opened TagCodec
  import opened Outbounds
  import opened ChainCompiler
  import opened ChainMeaning

  // ---------------------------------------------------------------- well-formed chains

  ghost predicate GroupFine(env: Env, g: Id) {
    && g in env.db.groups
    && !CycleReachable(GraphOf(env.db.groups), [g])
    && forall n :: Offers(env, g, n) ==> Plain(env, n) && n in env.buildable
  }

  ghost predicate MemberFine(env: Env, m: Member) {
    match m
    case NodeMember(n) => Plain(env, n) && n in env.buildable
    case GroupMember(g) => GroupFine(env, g)
  }

  /** At least two members; every node known, plain and buildable, also inside groups; every group
      known and free of cycles below. */
  ghost predicate ChainFine(env: Env, members: seq<Member>) {
    |members| >= 2 && forall m :: m in members ==> MemberFine(env, m)
  }

  ghost predicate FineUpTo(env: Env, members: seq<Member>, k: nat)
    requires k <= |members|
  {
    forall j :: 0 <= j < k ==> MemberFine(env, members[j])
  }

  // ---------------------------------------------------------------- one member after another

  ghost predicate LastIsBuilt(r: Step) {
    r.Built? && (r.last.Some? ==> r.last.value in r.st.outs && r.last.value.tag == r.tag && r.last.value.NodeOut?)
  }

  function DetourAt(k: nat, prev: Step): Option<Tag>
    requires prev.Built?
  {
    if k == 0 then None else Some(prev.tag)
  }

  /** After k members: the emitted tags belong to earlier members and the last tag means the first k. */
  ghost predicate Reached(env: Env, c: Id, members: seq<Member>, k: nat, tags0: set<Tag>, prev: Step)
    requires k <= |members|
  {
    && LastIsBuilt(prev) && Base(c, tags0, prev.st) && BuiltBefore(env, prev.st)
    && (forall t :: t in TagsOf(prev.st.outs) ==> LevelOf(t) < k)
    && DetourOk(prev.st.outs, DetourAt(k, prev))
    && (forall h :: Before(prev.st.outs, DetourAt(k, prev), h) <==> ChainHops(env, members, k, h))
    && FineUpTo(env, members, k)
  }

  lemma EnterLevel(env: Env, c: Id, members: seq<Member>, k: nat, tags0: set<Tag>, prev: Step)
    requires k <= |members| && Reached(env, c, members, k, tags0, prev)
    ensures Level(env, c, k, DetourAt(k, prev), prev.st.outs)
    ensures Tagged(c, k, prev.st.outs) == {}
    ensures forall t :: ChainOf(t) == Some(c) && LevelOf(t) == k ==> t !in prev.st.tags
  {
    assert Tagged(c, k, prev.st.outs) == {};
  }

  lemma NodeMemberStep(env: Env, c: Id, members: seq<Member>, k: nat, tags0: set<Tag>, prev: Step)
    requires k < |members| && Reached(env, c, members, k, tags0, prev) && members[k].NodeMember?
    ensures var r := BuildMember(env, c, k, members[k], DetourAt(k, prev), prev.st);
            (r.Built? <==> MemberFine(env, members[k]))
              && (r.Built? ==> Reached(env, c, members, k + 1, tags0, r) && prev.st.outs <= r.st.outs)
  {
    var n, detour := members[k].id, DetourAt(k, prev);
    var tag := Tag.ChainNode(c, k, n);
    EnterLevel(env, c, members, k, tags0, prev);
    assert ChainOf(tag) == Some(c) && LevelOf(tag) == k;
    assert tag !in prev.st.tags;
    if Plain(env, n) && n in env.buildable {
      var o := NodeOut(tag, n, detour);
      EmitBase(c, tags0, prev.st, o);
      var outs := Emit(prev.st, o).outs;
      assert o in outs;
      NodeExtendsHops(env, members, k, n, detour, prev.st.outs, outs, o);
      FineUpToNext(env, members, k);
      IsReached(env, c, members, k + 1, tags0, Built(Emit(prev.st, o), tag, Some(o)));
    }
  }

  lemma NodeExtendsHops(env: Env, members: seq<Member>, k: nat, n: Id, detour: Option<Tag>, before: seq<Outbound>,
                        outs: seq<Outbound>, o: Outbound)
    requires k < |members| && members[k] == NodeMember(n) && o.NodeOut? && o.node == n && o.detour == detour
    requires before <= outs && Ordered(outs) && o in outs && DetourOk(before, detour)
    requires forall h :: Before(before, detour, h) <==> ChainHops(env, members, k, h)
    ensures forall h :: Routes(outs, o.tag, h) <==> ChainHops(env, members, k + 1, h)
  {
    forall h
      ensures Routes(outs, o.tag, h) <==> ChainHops(env, members, k + 1, h)
    {
      RoutesNode(outs, o, h);
      BeforeStable(before, outs, detour, Init(h));
      assert Before(before, detour, Init(h)) <==> ChainHops(env, members, k, Init(h));
      if detour.None? {
        assert h == [n] <==> EndsWith(h, n) && Init(h) == [];
      }
    }
  }

  lemma TaggedIsFine(env: Env, c: Id, i: nat, detour: Option<Tag>, outs: seq<Outbound>, g: Id)
    requires Level(env, c, i, detour, outs) && g in Tagged(c, i, outs)
    ensures GroupFine(env, g)
  {
    var gr := GraphOf(env.db.groups);
    SettledSeeds(gr, Tagged(c, i, outs), [g]);
    forall n | Offers(env, g, n)
      ensures Plain(env, n) && n in env.buildable
    {
      var x :| Reaches(gr, g, x) && n in GroupNodes(env, x);
      ClosedHoldsReachable(gr, Tagged(c, i, outs), g, x);
      assert PlainGroup(env, x);
    }
  }

  lemma GroupTagExtendsHops(env: Env, members: seq<Member>, k: nat, g: Id, detour: Option<Tag>, before: seq<Outbound>,
                            outs: seq<Outbound>, t: Tag)
    requires k < |members| && members[k] == GroupMember(g)
    requires before <= outs && Ordered(outs) && DetourOk(before, detour) && GroupTagMeans(env, t, g, outs, detour)
    requires forall h :: Before(before, detour, h) <==> ChainHops(env, members, k, h)
    ensures forall h :: Routes(outs, t, h) <==> ChainHops(env, members, k + 1, h)
  {
    forall h
      ensures Routes(outs, t, h) <==> ChainHops(env, members, k + 1, h)
    {
      BeforeStable(before, outs, detour, Init(h));
      assert Before(before, detour, Init(h)) <==> ChainHops(env, members, k, Init(h));
    }
  }

  lemma GroupMemberStep(env: Env, c: Id, members: seq<Member>, k: nat, tags0: set<Tag>, prev: Step)
    requires k < |members| && Reached(env, c, members, k, tags0, prev) && members[k].GroupMember?
             && "" !in env.db.groups
    ensures var r := BuildMember(env, c, k, members[k], DetourAt(k, prev), prev.st);
            r.Built? ==> Reached(env, c, members, k + 1, tags0, r) && prev.st.outs <= r.st.outs
  {
    var g, detour := members[k].id, DetourAt(k, prev);
    EnterLevel(env, c, members, k, tags0, prev);
    if g in env.db.groups {
      BuildGroupLevel(env, c, k, g, tags0, detour, prev.st, {});
      var r := BuildGroup(env, c, k, g, detour, prev.st, {});
      if r.Built? {
        GroupMemberReached(env, c, members, k, tags0, prev, r);
      }
    }
  }

  lemma GroupMemberReached(env: Env, c: Id, members: seq<Member>, k: nat, tags0: set<Tag>, prev: Step, r: Step)
    requires k < |members| && Reached(env, c, members, k, tags0, prev) && members[k].GroupMember?
    requires r.Built? && r.last == None && r.tag == Tag.ChainGroup(c, k, members[k].id)
    requires members[k].id in Tagged(c, k, r.st.outs)
    requires GroupBuilt(env, c, k, tags0, DetourAt(k, prev), prev.st, r.st, {})
    ensures Reached(env, c, members, k + 1, tags0, r)
  {
    var g, detour := members[k].id, DetourAt(k, prev);
    TaggedTag(c, k, r.st.outs, g);
    TaggedIsFine(env, c, k, detour, r.st.outs, g);
    GroupTagExtendsHops(env, members, k, g, detour, prev.st.outs, r.st.outs, r.tag);
    LevelsBelowNext(env, c, k, detour, r.st.outs);
    FineUpToNext(env, members, k);
    IsReached(env, c, members, k + 1, tags0, r);
  }

  lemma LevelsBelowNext(env: Env, c: Id, k: nat, detour: Option<Tag>, outs: seq<Outbound>)
    requires Level(env, c, k, detour, outs)
    ensures forall t :: t in TagsOf(outs) ==> LevelOf(t) < k + 1
  {
  }

  lemma FineUpToNext(env: Env, members: seq<Member>, k: nat)
    requires k < |members| && FineUpTo(env, members, k) && MemberFine(env, members[k])
    ensures FineUpTo(env, members, k + 1)
  {
  }

  // ---------------------------------------------------------------- the terminal rewrite

  /** After j nodes of the rewritten group. */
  ghost predicate Rewriting(c: Id, i: nat, nodes: seq<Id>, j: nat, final: Id, detour: Option<Tag>, outs: seq<Outbound>)
    requires j <= |nodes|
  {
    && DetourOk(outs, detour)
    && (forall t :: t in TagsOf(outs) ==> LevelOf(t) <= i)
    && (forall t :: t in TagsOf(outs) && LevelOf(t) == i ==> (t.GroupNode? || t.Terminal?) && t.member < j)
    && (forall m :: 0 <= m < j ==> NodeOut(Tag.GroupNode(c, i, m, nodes[m]), nodes[m], detour) in outs)
    && (forall m :: 0 <= m < j ==>
          NodeOut(Tag.Terminal(c, i, m, final), final, Some(Tag.GroupNode(c, i, m, nodes[m]))) in outs)
  }

  function FinalTags(c: Id, i: nat, n: nat, k: nat, final: Id): seq<Tag>
    decreases n - k
  {
    if k >= n then [] else [Tag.Terminal(c, i, k, final)] + FinalTags(c, i, n, k + 1, final)
  }

  lemma {:induction false} FinalTagsContents(c: Id, i: nat, n: nat, k: nat, final: Id)
    ensures forall t :: t in FinalTags(c, i, n, k, final) <==>
              t.Terminal? && t == Tag.Terminal(c, i, t.member, final) && k <= t.member < n
    decreases n - k
  {
    if k < n {
      FinalTagsContents(c, i, n, k + 1, final);
    }
  }

  lemma RewriteOne(env: Env, c: Id, i: nat, tags0: set<Tag>, nodes: seq<Id>, k: nat, final: Id, detour: Option<Tag>,
                   st: State)
    requires k < |nodes| && Base(c, tags0, st) && BuiltBefore(env, st)
             && Rewriting(c, i, nodes, k, final, detour, st.outs)
    requires nodes[k] in env.buildable && final in env.buildable
    ensures var t1, t2 := Tag.GroupNode(c, i, k, nodes[k]), Tag.Terminal(c, i, k, final);
            var e := Emit(Emit(st, NodeOut(t1, nodes[k], detour)), NodeOut(t2, final, Some(t1)));
            && t1 !in st.tags && t2 !in Emit(st, NodeOut(t1, nodes[k], detour)).tags
            && Base(c, tags0, e) && BuiltBefore(env, e) && Rewriting(c, i, nodes, k + 1, final, detour, e.outs)
               && st.outs <= e.outs
  {
    var t1, t2 := Tag.GroupNode(c, i, k, nodes[k]), Tag.Terminal(c, i, k, final);
    var o1, o2 := NodeOut(t1, nodes[k], detour), NodeOut(t2, final, Some(t1));
    assert ChainOf(t1) == Some(c) && LevelOf(t1) == i && ChainOf(t2) == Some(c) && LevelOf(t2) == i;
    EmitBase(c, tags0, st, o1);
    var s1 := Emit(st, o1);
    EmitBase(c, tags0, s1, o2);
    var e := Emit(s1, o2);
    assert e.outs == st.outs + [o1, o2];
    BuiltBeforeTwo(env, st, o1, o2, e);
    RewritingGrows(c, i, nodes, k, final, detour, st.outs, e.outs);
  }

  lemma BuiltBeforeTwo(env: Env, st: State, o1: Outbound, o2: Outbound, e: State)
    requires BuiltBefore(env, st) && e.outs == st.outs + [o1, o2] && o1.NodeOut? && o2.NodeOut?
    requires o1.node in env.buildable && o2.node in env.buildable
    ensures BuiltBefore(env, e)
  {
  }

  lemma RewritingGrows(c: Id, i: nat, nodes: seq<Id>, k: nat, final: Id, detour: Option<Tag>, outs: seq<Outbound>,
                       all: seq<Outbound>)
    requires k < |nodes| && Rewriting(c, i, nodes, k, final, detour, outs)
    requires var t1, t2 := Tag.GroupNode(c, i, k, nodes[k]), Tag.Terminal(c, i, k, final);
             && all == outs + [NodeOut(t1, nodes[k], detour), NodeOut(t2, final, Some(t1))]
             && TagsOf(all) == TagsOf(outs) + {t1} + {t2}
    ensures Rewriting(c, i, nodes, k + 1, final, detour, all)
  {
    var t1, t2 := Tag.GroupNode(c, i, k, nodes[k]), Tag.Terminal(c, i, k, final);
    assert all[|outs|] == NodeOut(t1, nodes[k], detour) && all[|outs| + 1] == NodeOut(t2, final, Some(t1));
    assert forall o :: o in outs ==> o in all;
  }

  lemma {:induction false} RewriteNodes(env: Env, c: Id, i: nat, tags0: set<Tag>, nodes: seq<Id>, k: nat, final: Id,
                                        detour: Option<Tag>, st: State)
    requires k <= |nodes| && Base(c, tags0, st) && BuiltBefore(env, st)
             && Rewriting(c, i, nodes, k, final, detour, st.outs)
    ensures var r := BuildTerminalNodes(env, c, i, nodes, k, final, detour, st);
            && (r.BuiltAll? <==>
                  forall j :: k <= j < |nodes| ==>
                    Plain(env, nodes[j]) && nodes[j] in env.buildable && final in env.buildable)
            && (r.BuiltAll? ==>
              && Base(c, tags0, r.st) && BuiltBefore(env, r.st)
                 && Rewriting(c, i, nodes, |nodes|, final, detour, r.st.outs)
              && st.outs <= r.st.outs && r.tags == FinalTags(c, i, |nodes|, k, final))
    decreases |nodes| - k
  {
    if k < |nodes| {
      RewriteFirst(env, c, i, tags0, nodes, k, final, detour, st);
      if Plain(env, nodes[k]) && nodes[k] in env.buildable && final in env.buildable {
        RewriteOne(env, c, i, tags0, nodes, k, final, detour, st);
        RewriteNodes(env, c, i, tags0, nodes, k + 1, final, detour, TwoMore(c, i, nodes, k, final, detour, st));
        OneThenRest(env, nodes, k, final);
      }
    }
  }

  lemma OneThenRest(env: Env, nodes: seq<Id>, k: nat, final: Id)
    requires k < |nodes| && Plain(env, nodes[k]) && nodes[k] in env.buildable && final in env.buildable
    ensures (forall j :: k <= j < |nodes| ==>
               Plain(env, nodes[j]) && nodes[j] in env.buildable && final in env.buildable)
            <==> forall j :: k + 1 <= j < |nodes| ==>
               Plain(env, nodes[j]) && nodes[j] in env.buildable && final in env.buildable
  {
  }

  function TwoMore(c: Id, i: nat, nodes: seq<Id>, k: nat, final: Id, detour: Option<Tag>, st: State): State
    requires k < |nodes|
  {
    var t1 := Tag.GroupNode(c, i, k, nodes[k]);
    Emit(Emit(st, NodeOut(t1, nodes[k], detour)), NodeOut(Tag.Terminal(c, i, k, final), final, Some(t1)))
  }

  /** One round of the rewrite's node loop: two outbounds, or an error. */
  lemma RewriteFirst(env: Env, c: Id, i: nat, tags0: set<Tag>, nodes: seq<Id>, k: nat, final: Id, detour: Option<Tag>,
                     st: State)
    requires k < |nodes| && Base(c, tags0, st) && Rewriting(c, i, nodes, k, final, detour, st.outs)
    ensures var r := BuildTerminalNodes(env, c, i, nodes, k, final, detour, st);
            var rest := BuildTerminalNodes(env, c, i, nodes, k + 1, final, detour,
                                           TwoMore(c, i, nodes, k, final, detour, st));
            if Plain(env, nodes[k]) && nodes[k] in env.buildable && final in env.buildable then
              && r.BuiltAll? == rest.BuiltAll?
              && (r.BuiltAll? ==> r.st == rest.st && r.tags == [Tag.Terminal(c, i, k, final)] + rest.tags)
            else r.FailedAll?
  {
    var t1, t2 := Tag.GroupNode(c, i, k, nodes[k]), Tag.Terminal(c, i, k, final);
    assert ChainOf(t1) == Some(c) && LevelOf(t1) == i && ChainOf(t2) == Some(c) && LevelOf(t2) == i;
    assert t1 !in st.tags && t2 !in st.tags;
  }

  /** A group without children and exits offers exactly its own nodes. */
  lemma LeafGroup(env: Env, g: Id)
    requires g in env.db.groups && env.db.groups[g].groupIds == [] && Exits(env, g) == []
    ensures forall n :: Offers(env, g, n) <==> n in GroupNodes(env, g)
    ensures !OffersDirect(env, g)
    ensures !CycleReachable(GraphOf(env.db.groups), [g])
  {
    var gr := GraphOf(env.db.groups);
    ReachesSelf(gr, g);
    forall x | Reaches(gr, g, x)
      ensures x == g
    {
      if x != g {
        var y := ReachesFirst(gr, g, x);
      }
    }
    assert !OnCycle(gr, g);
  }

  lemma RewrittenNodeRoutes(c: Id, k: nat, nodes: seq<Id>, m: nat, final: Id, detour: Option<Tag>, outs: seq<Outbound>,
                            all: seq<Outbound>, h: seq<Id>)
    requires m < |nodes| && Rewriting(c, k, nodes, |nodes|, final, detour, outs) && outs <= all && Ordered(all)
    ensures Routes(all, Tag.Terminal(c, k, m, final), h)
            <==> EndsWith(h, final) && EndsWith(Init(h), nodes[m]) && Before(all, detour, Init(Init(h)))
  {
    var t1 := Tag.GroupNode(c, k, m, nodes[m]);
    var o1, o2 := NodeOut(t1, nodes[m], detour), NodeOut(Tag.Terminal(c, k, m, final), final, Some(t1));
    var x := Init(h);
    assert o1 in outs && o2 in outs;
    assert o1 in all && o2 in all;
    RoutesNode(all, o2, h);
    RoutesNode(all, o1, x);
    if detour.None? {
      assert x == [nodes[m]] <==> EndsWith(x, nodes[m]) && Init(x) == [];
    }
  }

  /** The two last members of a chain that ends in a leaf group and a node. */
  lemma LeafThenNodeHops(env: Env, members: seq<Member>, k: nat, h: seq<Id>)
    requires EndsInGroupNode(members, k)
    requires members[k].id in env.db.groups && env.db.groups[members[k].id].groupIds == []
             && Exits(env, members[k].id) == []
    ensures ChainHops(env, members, k + 2, h) <==>
            && EndsWith(h, members[k + 1].id) && |Init(h)| > 0
            && Init(h)[|Init(h)| - 1] in GroupNodes(env, members[k].id) && ChainHops(env, members, k, Init(Init(h)))
  {
    LeafGroup(env, members[k].id);
    assert ChainHops(env, members, k + 2, h) <==>
             EndsWith(h, members[k + 1].id) && ChainHops(env, members, k + 1, Init(h));
  }

  /** The selector of a rewritten leaf group, emitted behind the rewritten nodes. */
  ghost predicate RewrittenSelector(env: Env, c: Id, members: seq<Member>, k: nat, detour: Option<Tag>,
                                    before: seq<Outbound>, outs: seq<Outbound>, o: Outbound)
  {
    && EndsInGroupNode(members, k)
    && members[k].id in env.db.groups && env.db.groups[members[k].id].groupIds == [] && Exits(env, members[k].id) == []
    && var nodes := GroupNodes(env, members[k].id);
    && Rewriting(c, k, nodes, |nodes|, members[k + 1].id, detour, outs)
    && o == Selector(Tag.ChainGroup(c, k, members[k].id), UniqueTags(FinalTags(c, k, |nodes|, 0, members[k + 1].id)))
    && before <= outs && Ordered(outs + [o]) && DetourOk(before, detour)
    && forall x :: Before(before, detour, x) <==> ChainHops(env, members, k, x)
  }

  lemma SelectorTags(env: Env, c: Id, k: nat, nodes: seq<Id>, final: Id)
    ensures forall t :: t in UniqueTags(FinalTags(c, k, |nodes|, 0, final)) <==>
              t.Terminal? && t == Tag.Terminal(c, k, t.member, final) && t.member < |nodes|
  {
    FinalTagsContents(c, k, |nodes|, 0, final);
    UniqueTagsContents(FinalTags(c, k, |nodes|, 0, final));
  }

  lemma RewrittenRoutesOnly(env: Env, c: Id, members: seq<Member>, k: nat, detour: Option<Tag>, before: seq<Outbound>,
                            outs: seq<Outbound>, o: Outbound, h: seq<Id>)
    requires RewrittenSelector(env, c, members, k, detour, before, outs, o) && Routes(outs + [o], o.tag, h)
    ensures ChainHops(env, members, k + 2, h)
  {
    var nodes, final, all := GroupNodes(env, members[k].id), members[k + 1].id, outs + [o];
    SelectorTags(env, c, k, nodes, final);
    assert o in all;
    SelectorForwards(all, o, h);
    var t :| t in o.members && Routes(all, t, h);
    RewrittenNodeRoutes(c, k, nodes, t.member, final, detour, outs, all, h);
    BeforeStable(before, all, detour, Init(Init(h)));
    assert Before(before, detour, Init(Init(h))) <==> ChainHops(env, members, k, Init(Init(h)));
    LeafThenNodeHops(env, members, k, h);
  }

  lemma HopsBehindLeaf(env: Env, c: Id, members: seq<Member>, k: nat, detour: Option<Tag>, before: seq<Outbound>,
                       outs: seq<Outbound>, o: Outbound, h: seq<Id>)
    requires RewrittenSelector(env, c, members, k, detour, before, outs, o) && ChainHops(env, members, k + 2, h)
    ensures EndsWith(h, members[k + 1].id) && |Init(h)| > 0
    ensures Init(h)[|Init(h)| - 1] in GroupNodes(env, members[k].id) && Before(outs + [o], detour, Init(Init(h)))
  {
    LeafThenNodeHops(env, members, k, h);
    BeforeStable(before, outs + [o], detour, Init(Init(h)));
    assert Before(before, detour, Init(Init(h))) <==> ChainHops(env, members, k, Init(Init(h)));
  }

  lemma RewrittenRoutesAll(env: Env, c: Id, members: seq<Member>, k: nat, detour: Option<Tag>, before: seq<Outbound>,
                           outs: seq<Outbound>, o: Outbound, h: seq<Id>)
    requires RewrittenSelector(env, c, members, k, detour, before, outs, o) && ChainHops(env, members, k + 2, h)
    ensures Routes(outs + [o], o.tag, h)
  {
    var nodes, final, all := GroupNodes(env, members[k].id), members[k + 1].id, outs + [o];
    HopsBehindLeaf(env, c, members, k, detour, before, outs, o, h);
    assert forall m :: 0 <= m < |nodes| ==> Tag.Terminal(c, k, m, final) in o.members by {
      SelectorTags(env, c, k, nodes, final);
    }
    var t := RewrittenTag(c, k, nodes, final, detour, outs, all, o.members, h);
    assert o in all;
    SelectorReaches(all, o, t, h);
  }

  lemma RewrittenRoutes(env: Env, c: Id, members: seq<Member>, k: nat, detour: Option<Tag>, before: seq<Outbound>,
                        outs: seq<Outbound>, o: Outbound, h: seq<Id>)
    requires RewrittenSelector(env, c, members, k, detour, before, outs, o)
    ensures Routes(outs + [o], o.tag, h) <==> ChainHops(env, members, k + 2, h)
  {
    if Routes(outs + [o], o.tag, h) {
      RewrittenRoutesOnly(env, c, members, k, detour, before, outs, o, h);
    }
    if ChainHops(env, members, k + 2, h) {
      RewrittenRoutesAll(env, c, members, k, detour, before, outs, o, h);
    }
  }

  lemma RewrittenTag(c: Id, k: nat, nodes: seq<Id>, final: Id, detour: Option<Tag>, outs: seq<Outbound>,
                     all: seq<Outbound>, tags: seq<Tag>, h: seq<Id>)
    returns (t: Tag)
    requires Rewriting(c, k, nodes, |nodes|, final, detour, outs) && outs <= all && Ordered(all)
    requires EndsWith(h, final) && |Init(h)| > 0 && Init(h)[|Init(h)| - 1] in nodes
             && Before(all, detour, Init(Init(h)))
    requires forall m :: 0 <= m < |nodes| ==> Tag.Terminal(c, k, m, final) in tags
    ensures t in tags && Routes(all, t, h)
  {
    var last := Init(h)[|Init(h)| - 1];
    var m :| 0 <= m < |nodes| && nodes[m] == last;
    t := Tag.Terminal(c, k, m, final);
    RewrittenNodeRoutes(c, k, nodes, m, final, detour, outs, all, h);
  }

  /** The rewrite applies to this group. */
  predicate Rewritable(env: Env, g: Id, final: Id) {
    && g in env.db.groups && env.db.groups[g].groupIds == [] && Exits(env, g) == []
    && Plain(env, final) && GroupNodes(env, g) != []
  }

  lemma TerminalOutcome(env: Env, c: Id, i: nat, g: Id, final: Id, detour: Option<Tag>, st: State)
    requires Tag.ChainGroup(c, i, g) !in st.tags
    ensures var t := BuildTerminal(env, c, i, g, final, detour, st);
            var r := BuildTerminalNodes(env, c, i, GroupNodes(env, g), 0, final, detour, st);
            && (t.Handled? && t.step.Built? ==>
              && Rewritable(env, g, final) && r.BuiltAll?
              && t.step == Built(Emit(r.st, Selector(Tag.ChainGroup(c, i, g), UniqueTags(r.tags))),
                                 Tag.ChainGroup(c, i, g), None))
            && (t.Handled? && t.step.Failed? ==>
                  g !in env.db.groups || !Plain(env, final) || (Rewritable(env, g, final) && r.FailedAll?))
  {
  }

  /** A handled rewrite builds exactly when both members are fine, and then means both. */
  lemma TerminalStep(env: Env, c: Id, members: seq<Member>, k: nat, tags0: set<Tag>, prev: Step)
    requires k < |members| && Reached(env, c, members, k, tags0, prev) && EndsInGroupNode(members, k)
    ensures var t := BuildTerminal(env, c, k, members[k].id, members[k + 1].id, DetourAt(k, prev), prev.st);
            t.Handled? ==>
              && (t.step.Built? <==> MemberFine(env, members[k]) && MemberFine(env, members[k + 1]))
              && (t.step.Built? ==> Reached(env, c, members, k + 2, tags0, t.step) && prev.st.outs <= t.step.st.outs)
  {
    var g, final, detour := members[k].id, members[k + 1].id, DetourAt(k, prev);
    EnterLevel(env, c, members, k, tags0, prev);
    assert ChainOf(Tag.ChainGroup(c, k, g)) == Some(c) && LevelOf(Tag.ChainGroup(c, k, g)) == k;
    TerminalOutcome(env, c, k, g, final, detour, prev.st);
    if Rewritable(env, g, final) {
      var nodes := GroupNodes(env, g);
      StartRewriting(c, k, nodes, final, detour, prev.st.outs);
      RewriteNodes(env, c, k, tags0, nodes, 0, final, detour, prev.st);
      RewriteFine(env, g, final);
      var r := BuildTerminalNodes(env, c, k, nodes, 0, final, detour, prev.st);
      if r.BuiltAll? {
        FinishRewrite(env, c, members, k, tags0, prev, r.st);
      }
    }
  }

  lemma StartRewriting(c: Id, i: nat, nodes: seq<Id>, final: Id, detour: Option<Tag>, outs: seq<Outbound>)
    requires DetourOk(outs, detour) && forall t :: t in TagsOf(outs) ==> LevelOf(t) < i
    ensures Rewriting(c, i, nodes, 0, final, detour, outs)
  {
  }

  lemma RewriteFine(env: Env, g: Id, final: Id)
    requires Rewritable(env, g, final)
    ensures (GroupFine(env, g) && final in env.buildable) <==>
            forall j :: 0 <= j < |GroupNodes(env, g)| ==>
              Plain(env, GroupNodes(env, g)[j]) && GroupNodes(env, g)[j] in env.buildable && final in env.buildable
  {
    LeafGroup(env, g);
    var nodes := GroupNodes(env, g);
    assert nodes[0] in nodes;
    forall j | 0 <= j < |nodes|
      ensures Offers(env, g, nodes[j])
    {
      assert nodes[j] in nodes;
    }
  }

  lemma FinishRewrite(env: Env, c: Id, members: seq<Member>, k: nat, tags0: set<Tag>, prev: Step, st: State)
    requires k < |members| && Reached(env, c, members, k, tags0, prev) && EndsInGroupNode(members, k)
    requires Rewritable(env, members[k].id, members[k + 1].id)
    requires MemberFine(env, members[k]) && MemberFine(env, members[k + 1])
    requires Base(c, tags0, st) && BuiltBefore(env, st) && prev.st.outs <= st.outs
    requires Rewriting(c, k, GroupNodes(env, members[k].id), |GroupNodes(env, members[k].id)|, members[k + 1].id,
                       DetourAt(k, prev), st.outs)
    ensures var g := members[k].id;
            var ts := UniqueTags(FinalTags(c, k, |GroupNodes(env, g)|, 0, members[k + 1].id));
            && ts != []
            && Reached(env, c, members, k + 2, tags0,
                       Built(Emit(st, Selector(Tag.ChainGroup(c, k, g), ts)), Tag.ChainGroup(c, k, g), None))
  {
    var g, final, detour := members[k].id, members[k + 1].id, DetourAt(k, prev);
    var nodes := GroupNodes(env, g);
    var o := Selector(Tag.ChainGroup(c, k, g), UniqueTags(FinalTags(c, k, |nodes|, 0, final)));
    EmitRewritten(env, c, k, tags0, nodes, final, detour, g, st);
    LevelsBelow(st, o, k);
    AllRewrittenRoutes(env, c, members, k, detour, prev.st.outs, st.outs, o);
    FineTwoMore(env, members, k);
    IsReached(env, c, members, k + 2, tags0, Built(Emit(st, o), o.tag, None));
  }

  lemma FineTwoMore(env: Env, members: seq<Member>, k: nat)
    requires k + 2 == |members| && FineUpTo(env, members, k) && MemberFine(env, members[k])
             && MemberFine(env, members[k + 1])
    ensures FineUpTo(env, members, k + 2)
  {
  }

  lemma IsReached(env: Env, c: Id, members: seq<Member>, k: nat, tags0: set<Tag>, r: Step)
    requires 0 < k <= |members| && LastIsBuilt(r) && Base(c, tags0, r.st) && BuiltBefore(env, r.st)
    requires r.tag in TagsOf(r.st.outs) && FineUpTo(env, members, k)
    requires forall t :: t in TagsOf(r.st.outs) ==> LevelOf(t) < k
    requires forall h :: Routes(r.st.outs, r.tag, h) <==> ChainHops(env, members, k, h)
    ensures Reached(env, c, members, k, tags0, r)
  {
  }

  lemma AllRewrittenRoutes(env: Env, c: Id, members: seq<Member>, k: nat, detour: Option<Tag>, before: seq<Outbound>,
                           outs: seq<Outbound>, o: Outbound)
    requires EndsInGroupNode(members, k) && Rewritable(env, members[k].id, members[k + 1].id)
    requires var nodes := GroupNodes(env, members[k].id);
             && Rewriting(c, k, nodes, |nodes|, members[k + 1].id, detour, outs)
             && o == Selector(Tag.ChainGroup(c, k, members[k].id),
                              UniqueTags(FinalTags(c, k, |nodes|, 0, members[k + 1].id)))
    requires before <= outs && Ordered(outs + [o]) && DetourOk(before, detour)
    requires forall x :: Before(before, detour, x) <==> ChainHops(env, members, k, x)
    ensures forall h :: Routes(outs + [o], o.tag, h) <==> ChainHops(env, members, k + 2, h)
  {
    forall h
      ensures Routes(outs + [o], o.tag, h) <==> ChainHops(env, members, k + 2, h)
    {
      RewrittenRoutes(env, c, members, k, detour, before, outs, o, h);
    }
  }

  lemma LevelsBelow(st: State, o: Outbound, k: nat)
    requires (forall t :: t in TagsOf(st.outs) ==> LevelOf(t) <= k) && LevelOf(o.tag) == k
    requires TagsOf(Emit(st, o).outs) == TagsOf(st.outs) + {o.tag}
    ensures forall t :: t in TagsOf(Emit(st, o).outs) ==> LevelOf(t) < k + 2
  {
  }

  lemma EmitRewritten(env: Env, c: Id, k: nat, tags0: set<Tag>, nodes: seq<Id>, final: Id, detour: Option<Tag>, g: Id,
                      st: State)
    requires nodes != [] && Base(c, tags0, st) && BuiltBefore(env, st)
    requires Rewriting(c, k, nodes, |nodes|, final, detour, st.outs)
    ensures var ts := UniqueTags(FinalTags(c, k, |nodes|, 0, final));
            var e := Emit(st, Selector(Tag.ChainGroup(c, k, g), ts));
            && ts != [] && Base(c, tags0, e) && BuiltBefore(env, e)
            && TagsOf(e.outs) == TagsOf(st.outs) + {Tag.ChainGroup(c, k, g)}
  {
    var tag := Tag.ChainGroup(c, k, g);
    var finals := FinalTags(c, k, |nodes|, 0, final);
    var o := Selector(tag, UniqueTags(finals));
    FinalTagsContents(c, k, |nodes|, 0, final);
    UniqueTagsContents(finals);
    assert Tag.Terminal(c, k, 0, final) in finals;
    assert ChainOf(tag) == Some(c) && LevelOf(tag) == k;
    FinalTargets(c, k, nodes, final, detour, st.outs, o);
    EmitBase(c, tags0, st, o);
  }

  lemma FinalTargets(c: Id, i: nat, nodes: seq<Id>, final: Id, detour: Option<Tag>, outs: seq<Outbound>, o: Outbound)
    requires Rewriting(c, i, nodes, |nodes|, final, detour, outs)
    requires o.Selector? && forall t :: t in o.members ==>
               t.Terminal? && t == Tag.Terminal(c, i, t.member, final) && t.member < |nodes|
    ensures forall t :: t in Targets(o) ==> t in TagsOf(outs)
  {
    forall t | t in Targets(o)
      ensures t in TagsOf(outs)
    {
      assert NodeOut(Tag.Terminal(c, i, t.member, final), final,
                     Some(Tag.GroupNode(c, i, t.member, nodes[t.member]))) in outs;
    }
  }

  // ---------------------------------------------------------------- fine members build

  lemma {:induction false} FineNodesBuild(env: Env, c: Id, i: nat, nodes: seq<Id>, k: nat, detour: Option<Tag>,
                                          st: State)
    requires forall j :: k <= j < |nodes| ==> Plain(env, nodes[j]) && nodes[j] in env.buildable
    ensures BuildGroupNodes(env, c, i, nodes, k, detour, st).BuiltAll?
    decreases |nodes| - k
  {
    if k < |nodes| {
      var r := BuildNode(env, nodes[k], Tag.GroupNode(c, i, k, nodes[k]), detour, st);
      FineNodesBuild(env, c, i, nodes, k + 1, detour, r.st);
    }
  }

  /** Every group being visited lies strictly above x. */
  ghost predicate Above(env: Env, visiting: set<Id>, x: Id) {
    forall v :: v in visiting ==> exists y ::
      Edge(GraphOf(env.db.groups), v, y) && Reaches(GraphOf(env.db.groups), y, x)
  }

  lemma ChildIsFine(env: Env, g: Id, x: Id, visiting: set<Id>)
    requires GroupFine(env, g) && Above(env, visiting, g) && Edge(GraphOf(env.db.groups), g, x)
    ensures GroupFine(env, x) && Above(env, visiting + {g}, x)
  {
    var gr := GraphOf(env.db.groups);
    ReachesSelf(gr, x);
    forall a | ReachesAny(gr, [x], a)
      ensures ReachesAny(gr, [g], a)
    {
      ReachesStep(gr, g, x, a);
      assert g in [g];
    }
    forall n | Offers(env, x, n)
      ensures Offers(env, g, n)
    {
      var y :| Reaches(gr, x, y) && n in GroupNodes(env, y);
      ReachesStep(gr, g, x, y);
    }
    forall v | v in visiting + {g}
      ensures exists y :: Edge(gr, v, y) && Reaches(gr, y, x)
    {
      if v in visiting {
        var y :| Edge(gr, v, y) && Reaches(gr, y, g);
        ReachesThen(gr, y, g, x);
      }
    }
  }

  lemma FineIsNotVisited(env: Env, g: Id, visiting: set<Id>)
    requires GroupFine(env, g) && Above(env, visiting, g)
    ensures g !in visiting
    ensures forall n :: n in GroupNodes(env, g) ==> Plain(env, n) && n in env.buildable
  {
    var gr := GraphOf(env.db.groups);
    ReachesSelf(gr, g);
    assert ReachesAny(gr, [g], g) by {
      assert g in [g];
    }
    forall n | n in GroupNodes(env, g)
      ensures Offers(env, g, n)
    {
    }
  }

  lemma {:induction false} FineGroupBuilds(env: Env, c: Id, i: nat, g: Id, detour: Option<Tag>, st: State,
                                           visiting: set<Id>)
    requires GroupFine(env, g) && Above(env, visiting, g) && "" !in env.db.groups
    ensures BuildGroup(env, c, i, g, detour, st, visiting).Built?
    decreases |env.db.groups.Keys - visiting|, 0, 0
  {
    FineIsNotVisited(env, g, visiting);
    if Tag.ChainGroup(c, i, g) !in st.tags {
      var nodes, children := GroupNodes(env, g), ChildGroups(env, g);
      FineNodesBuild(env, c, i, nodes, 0, detour, st);
      var r1 := BuildGroupNodes(env, c, i, nodes, 0, detour, st);
      SubsetShrinks(env.db.groups.Keys, visiting, g);
      forall x | x in children
        ensures GroupFine(env, x) && Above(env, visiting + {g}, x)
      {
        ChildIsEdge(env, g, x);
        ChildIsFine(env, g, x, visiting);
      }
      FineChildrenBuild(env, c, i, children, detour, r1.st, visiting + {g});
    }
  }

  lemma {:induction false} FineChildrenBuild(env: Env, c: Id, i: nat, children: seq<Id>, detour: Option<Tag>, st: State,
                                             visiting: set<Id>)
    requires "" !in env.db.groups
    requires forall x :: x in children ==> x in env.db.groups
    requires forall x :: x in children ==> GroupFine(env, x) && Above(env, visiting, x)
    ensures BuildChildren(env, c, i, children, detour, st, visiting).BuiltAll?
    decreases |env.db.groups.Keys - visiting|, 1, |children|
  {
    if |children| > 0 {
      FineGroupBuilds(env, c, i, children[0], detour, st, visiting);
      FineChildrenBuild(env, c, i, children[1..], detour, BuildGroup(env, c, i, children[0], detour, st, visiting).st,
                        visiting);
    }
  }

  // ---------------------------------------------------------------- whole chains

  ghost predicate FineFrom(env: Env, members: seq<Member>, k: nat) {
    forall j :: k <= j < |members| ==> MemberFine(env, members[j])
  }

  lemma MemberStep(env: Env, c: Id, members: seq<Member>, k: nat, tags0: set<Tag>, prev: Step)
    requires k < |members| && Reached(env, c, members, k, tags0, prev) && "" !in env.db.groups
    ensures var r := BuildMember(env, c, k, members[k], DetourAt(k, prev), prev.st);
            (r.Built? <==> MemberFine(env, members[k])) && (r.Built? ==> Reached(env, c, members, k + 1, tags0, r))
  {
    if members[k].NodeMember? {
      NodeMemberStep(env, c, members, k, tags0, prev);
    } else {
      GroupMemberStep(env, c, members, k, tags0, prev);
      if GroupFine(env, members[k].id) {
        FineGroupBuilds(env, c, k, members[k].id, DetourAt(k, prev), prev.st, {});
      }
      var r := BuildMember(env, c, k, members[k], DetourAt(k, prev), prev.st);
      if r.Built? {
        assert FineUpTo(env, members, k + 1);
      }
    }
  }

  lemma {:induction false} MembersResult(env: Env, c: Id, members: seq<Member>, k: nat, tags0: set<Tag>, prev: Step,
                                         rewrite: bool)
    requires k <= |members| && Reached(env, c, members, k, tags0, prev) && "" !in env.db.groups
    ensures var r := BuildMembers(env, c, members, k, prev, rewrite);
            (r.Built? <==> FineFrom(env, members, k)) && (r.Built? ==> Reached(env, c, members, |members|, tags0, r))
    decreases |members| - k, 1
  {
    if k < |members| {
      var detour := DetourAt(k, prev);
      var t := TryTerminal(env, c, members, k, detour, prev.st, rewrite);
      if t.Handled? {
        TerminalStep(env, c, members, k, tags0, prev);
      } else {
        MemberStep(env, c, members, k, tags0, prev);
        var next := BuildMember(env, c, k, members[k], detour, prev.st);
        MembersRest(env, c, members, k, tags0, prev, next, rewrite);
      }
    }
  }

  lemma {:induction false} MembersRest(env: Env, c: Id, members: seq<Member>, k: nat, tags0: set<Tag>, prev: Step,
                                       next: Step, rewrite: bool)
    requires k < |members| && prev.Built? && "" !in env.db.groups
    requires TryTerminal(env, c, members, k, DetourAt(k, prev), prev.st, rewrite).Declined?
    requires next == BuildMember(env, c, k, members[k], DetourAt(k, prev), prev.st)
    requires (next.Built? <==> MemberFine(env, members[k]))
             && (next.Built? ==> Reached(env, c, members, k + 1, tags0, next))
    ensures var r := BuildMembers(env, c, members, k, prev, rewrite);
            (r.Built? <==> FineFrom(env, members, k)) && (r.Built? ==> Reached(env, c, members, |members|, tags0, r))
    decreases |members| - k, 0
  {
    assert BuildMembers(env, c, members, k, prev, rewrite) == BuildMembers(env, c, members, k + 1, next, rewrite);
    if next.Built? {
      MembersResult(env, c, members, k + 1, tags0, next, rewrite);
      assert FineFrom(env, members, k) <==> MemberFine(env, members[k]) && FineFrom(env, members, k + 1);
    }
  }

  /** No tag of this chain is taken yet. */
  predicate FreshFor(c: Id, tags0: set<Tag>) {
    NodeTag(c) !in tags0 && forall t :: t in tags0 ==> ChainOf(t) != Some(c)
  }

  lemma StartOfChain(env: Env, c: Id, members: seq<Member>, tags0: set<Tag>)
    requires FreshFor(c, tags0)
    ensures Reached(env, c, members, 0, tags0, Built(State([], tags0), Direct, None))
  {
  }

  /** The alias outbound means what the chain's last tag means. */
  lemma AliasMeans(outs: seq<Outbound>, c: Id, r: Step)
    requires LastIsBuilt(r) && r.st.outs == outs && Ordered(outs) && r.tag in TagsOf(outs)
    requires NodeTag(c) !in TagsOf(outs)
    ensures var all := outs + [Alias(NodeTag(c), r.tag, r.last)];
            Ordered(all) && forall h :: Routes(all, NodeTag(c), h) <==> Routes(outs, r.tag, h)
  {
    var o := Alias(NodeTag(c), r.tag, r.last);
    var all := outs + [o];
    if r.last.Some? {
      TargetsWithin(outs, outs, r.last.value);
    }
    OrderedAppend(outs, o);
    assert o in all;
    forall h
      ensures Routes(all, NodeTag(c), h) <==> Routes(outs, r.tag, h)
    {
      RoutesStable(outs, all, r.tag, h);
      if r.last.Some? {
        assert r.last.value in all;
        RoutesNode(all, o, h);
        RoutesNode(all, r.last.value, h);
      } else {
        RoutesSelector(all, o, h);
        assert r.tag in o.members;
      }
    }
  }

  /** The compiler succeeds exactly on well-formed chains, with or without the terminal rewrite, and
      what it emits is closed, free of repeated tags and ordered. */
  lemma ChainCompilesIff(env: Env, c: Id, tags0: set<Tag>, rewrite: bool)
    requires c in env.db.nodes && "" !in env.db.groups && FreshFor(c, tags0)
    ensures var r := BuildChain(env, c, State([], tags0), rewrite);
            && (r.Built? <==> ChainFine(env, NormalMembers(env.db.nodes[c].members)))
            && (r.Built? ==> r.tag == NodeTag(c) && Ordered(r.st.outs) && r.tag in TagsOf(r.st.outs))
  {
    var members := NormalMembers(env.db.nodes[c].members);
    if |members| >= 2 {
      var start := Built(State([], tags0), Direct, None);
      StartOfChain(env, c, members, tags0);
      MembersResult(env, c, members, 0, tags0, start, rewrite);
      var r := BuildMembers(env, c, members, 0, start, rewrite);
      if r.Built? {
        AliasMeans(r.st.outs, c, r);
        assert Alias(NodeTag(c), r.tag, r.last) in Emit(r.st, Alias(NodeTag(c), r.tag, r.last)).outs;
      }
      assert ChainFine(env, members) <==> FineFrom(env, members, 0);
    }
  }

  /** Following detour and selector links from the chain's tag finds exactly the hop sequences the
      members describe. */
  lemma ChainMeansItsMembers(env: Env, c: Id, tags0: set<Tag>, rewrite: bool, h: seq<Id>)
    requires c in env.db.nodes && "" !in env.db.groups && FreshFor(c, tags0)
    requires BuildChain(env, c, State([], tags0), rewrite).Built?
    ensures var members := NormalMembers(env.db.nodes[c].members);
            Routes(BuildChain(env, c, State([], tags0), rewrite).st.outs, NodeTag(c), h)
            <==> ChainHops(env, members, |members|, h)
  {
    var members := NormalMembers(env.db.nodes[c].members);
    var start := Built(State([], tags0), Direct, None);
    StartOfChain(env, c, members, tags0);
    MembersResult(env, c, members, 0, tags0, start, rewrite);
    var r := BuildMembers(env, c, members, 0, start, rewrite);
    AliasMeans(r.st.outs, c, r);
  }

  /** The terminal rewrite changes nothing: neither whether the chain compiles nor where it leads. */
  lemma RewriteChangesNothing(env: Env, c: Id, tags0: set<Tag>, h: seq<Id>)
    requires c in env.db.nodes && "" !in env.db.groups && FreshFor(c, tags0)
    ensures var with, without :=
              BuildChain(env, c, State([], tags0), true), BuildChain(env, c, State([], tags0), false);
            && (with.Built? <==> without.Built?)
            && (with.Built? ==> (Routes(with.st.outs, NodeTag(c), h) <==> Routes(without.st.outs, NodeTag(c), h)))
  {
    ChainCompilesIff(env, c, tags0, true);
    ChainCompilesIff(env, c, tags0, false);
    if BuildChain(env, c, State([], tags0), true).Built? {
      ChainMeansItsMembers(env, c, tags0, true, h);
      ChainMeansItsMembers(env, c, tags0, false, h);
    }
  }

  // ---------------------------------------------------------------- the invariant of the tables is enough

  lemma {:induction false} GroupedContents(env: Env, g: Id, rows: seq<Id>, listed: seq<Id>)
    ensures forall n :: n in Grouped(env, g, rows, listed) <==>
                        n in rows && n in env.db.nodes && env.db.nodes[n].groupId == g && n !in listed
  {
    if |rows| > 0 {
      GroupedContents(env, g, rows[1..], listed);
      assert rows == [rows[0]] + rows[1..];
    }
  }

  /** The nodes of a group, as the planner reads them, are the nodes that belong to it. */
  lemma GroupNodesBelong(env: Env, g: Id, n: Id)
    requires "" !in env.db.nodes && forall x :: x in env.db.nodes ==> x in env.order
    ensures n in GroupNodes(env, g) <==> Belongs(env.db, g, n)
  {
    if g in env.db.groups {
      var listed := Known(Unique(env.db.groups[g].nodeIds), env.db.nodes.Keys);
      UniqueContents(env.db.groups[g].nodeIds);
      KnownContents(Unique(env.db.groups[g].nodeIds), env.db.nodes.Keys);
      GroupedContents(env, g, env.order, listed);
    }
  }

  /** Tables that keep the chain-group invariant compile every chain whose members exist and are plain
      and whose nodes can be built. */
  lemma SafeChainsCompile(env: Env, c: Id, tags0: set<Tag>, rewrite: bool)
    requires Valid(env.db) && "" !in env.db.nodes && "" !in env.db.groups && FreshFor(c, tags0)
    requires forall x :: x in env.db.nodes ==> x in env.order && x in env.buildable
    requires c in env.db.nodes && env.db.nodes[c].isChain
    requires env.db.nodes[c].members == NormalMembers(env.db.nodes[c].members) && |env.db.nodes[c].members| >= 2
    requires forall x :: NodeMember(x) in env.db.nodes[c].members ==> Plain(env, x)
    requires forall g :: GroupMember(g) in env.db.nodes[c].members ==> g in env.db.groups
    ensures BuildChain(env, c, State([], tags0), rewrite).Built?
  {
    var members := env.db.nodes[c].members;
    var gr := GraphOf(env.db.groups);
    var seeds := GroupIdsOf(members);
    assert ChainSafe(env.db, seeds);
    forall m | m in members
      ensures MemberFine(env, m)
    {
      if m.GroupMember? {
        GroupIdsHold(members, m.id);
        SafeGroupIsFine(env, seeds, m.id);
      }
    }
    ChainCompilesIff(env, c, tags0, rewrite);
  }

  lemma {:induction false} GroupIdsHold(members: seq<Member>, g: Id)
    requires GroupMember(g) in members
    ensures g in GroupIdsOf(members)
  {
    if members[0] != GroupMember(g) {
      assert members == [members[0]] + members[1..];
      GroupIdsHold(members[1..], g);
    }
  }

  lemma SafeGroupIsFine(env: Env, seeds: seq<Id>, g: Id)
    requires ChainSafe(env.db, seeds) && g in seeds && g in env.db.groups && "" !in env.db.nodes
    requires forall x :: x in env.db.nodes ==> x in env.order && x in env.buildable
    ensures GroupFine(env, g)
  {
    var gr := GraphOf(env.db.groups);
    forall a | ReachesAny(gr, [g], a)
      ensures ReachesAny(gr, seeds, a)
    {
    }
    forall n | Offers(env, g, n)
      ensures Plain(env, n) && n in env.buildable
    {
      var x :| Reaches(gr, g, x) && n in GroupNodes(env, x);
      GroupNodesBelong(env, x, n);
      assert ReachesAny(gr, seeds, x);
    }
  }
}
