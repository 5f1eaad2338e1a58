/** The part of the plan builder that compiles a chain and hands its groups to balancers
    (service/proxy/runtime_plan.go:566-675), and what its loops leave behind. */
module ChainPlans {
  import opened Wrappers
  import opened Ids
  import opened GroupGraph
  import opened ConfigModel
  import opened TagCodec
  import opened Outbounds
  import opened ChainCompiler
  import opened ChainMeaning
  import opened ChainTheorems
  import opened ChainBuilder
  import opened DirectExits
  import opened ChainBalancers

  function SelectorTagsOf(outs: map<Tag, Outbound>, t: Tag): seq<Tag> {
    if t in outs && outs[t].Selector? then outs[t].members else []
  }

  /** From (p, o) to (q, r) the tags have been handed over, unless they were before. */
  ghost predicate HandedOver(env: Env, tags: set<Tag>, p: map<Tag, seq<Offer>>, o: map<Tag, Outbound>,
                             q: map<Tag, seq<Offer>>, r: map<Tag, Outbound>) {
    && q.Keys == p.Keys + tags
    && (forall t :: t in q ==> q[t] == if t in p then p[t] else Balancer(env, SelectorTagsOf(o, t)))
    && r == o - (tags - p.Keys)
  }

  lemma HandedTwice(env: Env, a: set<Tag>, b: set<Tag>, p: map<Tag, seq<Offer>>, o: map<Tag, Outbound>,
                    p1: map<Tag, seq<Offer>>, o1: map<Tag, Outbound>, q: map<Tag, seq<Offer>>, r: map<Tag, Outbound>)
    requires HandedOver(env, a, p, o, p1, o1) && HandedOver(env, b, p1, o1, q, r)
    ensures HandedOver(env, a + b, p, o, q, r)
  {
    assert r == o - (a + b - p.Keys) by {
      assert (o - (a - p.Keys)) - (b - p1.Keys) == o - (a + b - p.Keys);
    }
    forall t | t in q
      ensures q[t] == if t in p then p[t] else Balancer(env, SelectorTagsOf(o, t))
    {
      if t !in p1 {
        assert SelectorTagsOf(o1, t) == SelectorTagsOf(o, t);
      }
    }
  }

  lemma BelowChildren(env: Env, c: Id, i: nat, g: Id)
    requires g in env.db.groups && "" !in env.db.groups
    ensures GroupTagsBelow(env, c, i, g) == {Tag.ChainGroup(c, i, g)} + TagsBelowAll(env, c, i, ChildGroups(env, g))
  {
    var gr := GraphOf(env.db.groups);
    ReachesSelf(gr, g);
    TagsBelowAllContents(env, c, i, ChildGroups(env, g));
    forall x | x in env.db.groups
      ensures Reaches(gr, g, x) <==> x == g || exists y :: y in ChildGroups(env, g) && Reaches(gr, y, x)
    {
      if Reaches(gr, g, x) && x != g {
        var y := ReachesFirst(gr, g, x);
        ChildIsEdge(env, g, y);
      }
      if y :| y in ChildGroups(env, g) && Reaches(gr, y, x) {
        ChildIsEdge(env, g, y);
        ReachesStep(gr, g, y, x);
      }
    }
  }

  ghost function TagsBelowAll(env: Env, c: Id, i: nat, groups: seq<Id>): set<Tag> {
    if |groups| == 0 then {}
    else TagsBelowAll(env, c, i, groups[..|groups| - 1]) + GroupTagsBelow(env, c, i, groups[|groups| - 1])
  }

  lemma {:induction false} TagsBelowAllContents(env: Env, c: Id, i: nat, groups: seq<Id>)
    ensures forall t :: t in TagsBelowAll(env, c, i, groups) <==>
              && t.ChainGroup? && t.chain == c && t.index == i && t.group in env.db.groups
              && exists y :: y in groups && Reaches(GraphOf(env.db.groups), y, t.group)
  {
    if |groups| > 0 {
      var init, last := groups[..|groups| - 1], groups[|groups| - 1];
      TagsBelowAllContents(env, c, i, init);
      assert groups == init + [last];
    }
  }

  lemma ChildrenAreFine(env: Env, g: Id, visiting: set<Id>)
    requires GroupFine(env, g) && Above(env, visiting, g) && "" !in env.db.groups
    ensures forall x :: x in ChildGroups(env, g) ==> GroupFine(env, x) && Above(env, visiting + {g}, x)
  {
    forall x | x in ChildGroups(env, g)
      ensures GroupFine(env, x) && Above(env, visiting + {g}, x)
    {
      ChildIsEdge(env, g, x);
      ChildIsFine(env, g, x, visiting);
    }
  }

  /** The part of the plan builder that hands chain groups to balancers. */
  class ChainCache {
    const env: Env
    var plans: map<Tag, seq<Offer>>
    var outs: map<Tag, Outbound>

    constructor (env: Env, outs: map<Tag, Outbound>)
      ensures this.env == env && this.outs == outs && plans == map[]
    {
      this.env, this.outs, this.plans := env, outs, map[];
    }

    /** cacheDynamicChainGroup (runtime_plan.go:639).  The chain has been compiled, so no group is on a cycle. */
    method CacheGroup(c: Id, i: nat, g: Id, visiting: set<Id>)
      requires GroupFine(env, g) && Above(env, visiting, g) && "" !in env.db.groups
      modifies this
      ensures HandedOver(env, GroupTagsBelow(env, c, i, g), old(plans), old(outs), plans, outs)
      decreases |env.db.groups.Keys - visiting|, 0
    {
      FineIsNotVisited(env, g, visiting);
      if g in visiting {
        return;
      }
      var tag := Tag.ChainGroup(c, i, g);
      HandOne(tag);
      ghost var plans1, outs1 := plans, outs;
      SubsetShrinks(env.db.groups.Keys, visiting, g);
      var children := ChildGroups(env, g);
      ChildrenAreFine(env, g, visiting);
      CacheAll(c, i, children, visiting + {g});
      BelowChildren(env, c, i, g);
      HandedTwice(env, {tag}, TagsBelowAll(env, c, i, children), old(plans), old(outs), plans1, outs1, plans, outs);
    }

    /** A tag that is planned already stays as it is. */
    method HandOne(tag: Tag)
      modifies this
      ensures HandedOver(env, {tag}, old(plans), old(outs), plans, outs)
    {
      if tag !in plans {
        plans := plans[tag := Balancer(env, SelectorTagsOf(outs, tag))];
        outs := outs - {tag};
      }
    }

    method CacheAll(c: Id, i: nat, groups: seq<Id>, visiting: set<Id>)
      requires "" !in env.db.groups && forall x :: x in groups ==> GroupFine(env, x) && Above(env, visiting, x)
      modifies this
      ensures HandedOver(env, TagsBelowAll(env, c, i, groups), old(plans), old(outs), plans, outs)
      decreases |env.db.groups.Keys - visiting|, 1
    {
      for k := 0 to |groups|
        invariant HandedOver(env, TagsBelowAll(env, c, i, groups[..k]), old(plans), old(outs), plans, outs)
      {
        ghost var plans1, outs1 := plans, outs;
        CacheGroup(c, i, groups[k], visiting);
        HandedTwice(env, TagsBelowAll(env, c, i, groups[..k]), GroupTagsBelow(env, c, i, groups[k]),
                    old(plans), old(outs), plans1, outs1, plans, outs);
        assert groups[..k + 1][..k] == groups[..k];
      }
      assert groups[..|groups|] == groups;
    }

    /** cacheDynamicChainGroups (runtime_plan.go:622) for a chain that has just been compiled. */
    method CacheChain(c: Id)
      requires c in env.db.nodes && "" !in env.db.groups
      requires ChainFine(env, MembersOfChain(env, c))
      modifies this
      ensures var members := MembersOfChain(env, c);
              HandedOver(env, GroupTagsOf(env, c, members, |members|), old(plans), old(outs), plans, outs)
    {
      var members := NormalMembers(env.db.nodes[c].members);
      for k := 0 to |members|
        invariant HandedOver(env, GroupTagsOf(env, c, members, k), old(plans), old(outs), plans, outs)
      {
        if members[k].NodeMember? || members[k].id !in env.db.groups {
          assert MemberFine(env, members[k]);
          continue;
        }
        ghost var before, outsBefore := plans, outs;
        assert MemberFine(env, members[k]);
        CacheGroup(c, k, members[k].id, {});
        HandedTwice(env, GroupTagsOf(env, c, members, k), GroupTagsBelow(env, c, k, members[k].id), old(plans),
                    old(outs),
                    before, outsBefore, plans, outs);
      }
    }

    /** memberForNode (runtime_plan.go:566) for a chain that is planned for the first time: it is compiled under the
        tags taken so far, its outbounds are stored, and its groups go to balancers.  What the loops leave is the
        compiled chain with balanced groups, so it keeps all routes exactly when every group loses nobody; and
        nothing that was there before is touched. */
    method MemberForChain(c: Id) returns (built: bool)
      requires c in env.db.nodes && "" !in env.db.groups && FreshFor(c, Taken())
      requires FreshFor(c, plans.Keys)
      modifies this
      ensures built <==> ChainFine(env, MembersOfChain(env, c))
      ensures !built ==> plans == old(plans) && outs == old(outs)
      ensures built ==> Compiled(env, c, old(Taken()), true) && NodeTag(c) in outs
      ensures built ==> Rebuilt(ChainOuts(env, c, old(Taken())), plans, outs) == Balanced(env, c, old(Taken()))
      ensures built && CleanRows(env) ==>
                ((forall h :: Routes(Rebuilt(ChainOuts(env, c, old(Taken())), plans, outs), NodeTag(c), h) <==>
                                Leaves(env, c, old(Taken()), true, h))
                 <==> HandsOverAll(env, MembersOfChain(env, c)))
      ensures forall t :: t in old(plans) ==> t in plans && plans[t] == old(plans[t])
      ensures forall t :: t in old(outs) ==> t in outs && outs[t] == old(outs[t])
    {
      ghost var tags0 := Taken();
      ChainCompilesIff(env, c, tags0, true);
      var builder := new Builder(env, c, Taken());
      var out := builder.ChainOutbounds();
      if out.Stopped? {
        return false;
      }
      StoreAll(builder.outbounds);
      ghost var p, table := plans, outs;
      CacheChain(c);
      LoopsBalance(env, c, tags0, p, old(outs), table, plans, outs);
      OthersStay(env, c, tags0, p, old(outs), table, plans, outs);
      if CleanRows(env) {
        BalancersKeepRoutesIff(env, c, tags0);
      }
      return true;
    }

    function Taken(): set<Tag>
      reads this
    {
      outs.Keys + {Direct, Block}
    }

    method StoreAll(outbounds: seq<Outbound>)
      modifies this`outs
      ensures outs == StoredAll(old(outs), outbounds)
    {
      for i := 0 to |outbounds|
        invariant outs == StoredAll(old(outs), outbounds[..i])
      {
        outs := outs[outbounds[i].tag := outbounds[i]];
        assert outbounds[..i + 1][..i] == outbounds[..i];
      }
      assert outbounds[..|outbounds|] == outbounds;
    }
  }

  function StoredAll(table: map<Tag, Outbound>, outs: seq<Outbound>): map<Tag, Outbound> {
    if |outs| == 0 then table
    else StoredAll(table, outs[..|outs| - 1])[outs[|outs| - 1].tag := outs[|outs| - 1]]
  }

  lemma {:induction false} StoredAllContents(table: map<Tag, Outbound>, outs: seq<Outbound>)
    requires forall i, j :: 0 <= i < j < |outs| ==> outs[i].tag != outs[j].tag
    ensures forall i :: 0 <= i < |outs| ==> outs[i].tag in StoredAll(table, outs)
                                            && StoredAll(table, outs)[outs[i].tag] == outs[i]
    ensures forall t :: t in table && t !in TagsOf(outs) ==>
              t in StoredAll(table, outs) && StoredAll(table, outs)[t] == table[t]
    decreases |outs|
  {
    if |outs| > 0 {
      var init := outs[..|outs| - 1];
      StoredAllContents(table, init);
      assert outs == init + [outs[|outs| - 1]];
      assert TagsOf(init) <= TagsOf(outs);
    }
  }

  /** The outbounds as the core will see them: a balancer where one is planned, what is stored otherwise. */
  function Rebuilt(outs: seq<Outbound>, plans: map<Tag, seq<Offer>>, table: map<Tag, Outbound>): seq<Outbound> {
    seq(|outs|, i requires 0 <= i < |outs| =>
      var t := outs[i].tag;
      if t in plans then Selector(t, OfferedTags(plans[t])) else if t in table then table[t] else outs[i])
  }

  /** Under a group's tag there is a selector. */
  ghost predicate OnlySelectors(outs: seq<Outbound>) {
    forall o :: o in outs && o.tag.ChainGroup? ==> o.Selector?
  }

  lemma PlainSelectors(env: Env, c: Id, outs: seq<Outbound>)
    requires AllPlain(env, c, outs)
    ensures OnlySelectors(outs)
  {
    forall o | o in outs && o.tag.ChainGroup?
      ensures o.Selector?
    {
      assert PlainSelector(env, c, o);
    }
  }

  lemma RewrittenIsSelector(env: Env, c: Id, members: seq<Member>, k: nat, pre: seq<Outbound>, o: Outbound)
    requires RewrittenAt(env, c, members, k, pre, o)
    ensures o.Selector?
  {
    var before, detour :| RewrittenSelector(env, c, members, k, detour, before, pre, o);
  }

  lemma EndingSelectors(c: Id, pre: seq<Outbound>, o: Outbound)
    requires OnlySelectors(pre) && o.Selector?
    ensures OnlySelectors(Ending(c, pre, o))
  {
  }

  lemma GroupTagsAreSelectors(env: Env, c: Id, tags0: set<Tag>)
    requires Compiled(env, c, tags0, true)
    ensures OnlySelectors(ChainOuts(env, c, tags0))
  {
    var members := MembersOfChain(env, c);
    if Rewrites(env, members) {
      var outs, pre, o := CompiledShape(env, c, tags0);
      PlainSelectors(env, c, pre);
      RewrittenIsSelector(env, c, members, |members| - 2, pre, o);
      EndingSelectors(c, pre, o);
    } else {
      var r, outs := CompiledMembers(env, c, tags0);
      PlainSelectors(env, c, r.st.outs);
      AliasTag(c, r);
    }
  }

  lemma AliasTag(c: Id, r: Step)
    requires r.Built?
    ensures Alias(NodeTag(c), r.tag, r.last).tag == NodeTag(c)
  {
  }

  lemma ChainTags(env: Env, c: Id, tags0: set<Tag>)
    requires Compiled(env, c, tags0, true)
    ensures forall o :: o in ChainOuts(env, c, tags0) ==> o.tag == NodeTag(c) || ChainOf(o.tag) == Some(c)
    ensures NodeTag(c) in TagsOf(ChainOuts(env, c, tags0))
    ensures Ordered(ChainOuts(env, c, tags0))
  {
    var members := MembersOfChain(env, c);
    var start := Built(State([], tags0), Direct, None);
    StartOfChain(env, c, members, tags0);
    MembersResult(env, c, members, 0, tags0, start, true);
    ChainCompilesIff(env, c, tags0, true);
    TagsOfBuild(env, c, tags0, BuildMembers(env, c, members, 0, start, true));
  }

  lemma TagsOfBuild(env: Env, c: Id, tags0: set<Tag>, r: Step)
    requires Compiled(env, c, tags0, true) && r.Built? && Base(c, tags0, r.st)
    requires r == BuildMembers(env, c, MembersOfChain(env, c), 0, Built(State([], tags0), Direct, None), true)
    ensures forall o :: o in ChainOuts(env, c, tags0) ==> o.tag == NodeTag(c) || ChainOf(o.tag) == Some(c)
  {
    AliasTag(c, r);
    forall o | o in r.st.outs
      ensures ChainOf(o.tag) == Some(c)
    {
      assert o.tag in TagsOf(r.st.outs);
    }
  }

  lemma {:induction false} HandedTagsOfChain(env: Env, c: Id, members: seq<Member>, n: nat)
    requires n <= |members|
    ensures forall t :: t in GroupTagsOf(env, c, members, n) ==> t.ChainGroup? && t.chain == c
  {
    if n > 0 {
      HandedTagsOfChain(env, c, members, n - 1);
    }
  }

  /** What the loops leave, put together again, is the compiled chain with balanced groups. */
  lemma LoopsBalance(env: Env, c: Id, tags0: set<Tag>, p: map<Tag, seq<Offer>>, earlier: map<Tag, Outbound>,
                     table: map<Tag, Outbound>, q: map<Tag, seq<Offer>>, r: map<Tag, Outbound>)
    requires Compiled(env, c, tags0, true) && FreshFor(c, p.Keys)
    requires table == StoredAll(earlier, ChainOuts(env, c, tags0))
    requires HandedOver(env, GroupTagsOf(env, c, MembersOfChain(env, c), |MembersOfChain(env, c)|), p, table, q, r)
    ensures Rebuilt(ChainOuts(env, c, tags0), q, r) == Balanced(env, c, tags0) && NodeTag(c) in r
  {
    var outs := ChainOuts(env, c, tags0);
    var handed := GroupTagsOf(env, c, MembersOfChain(env, c), |MembersOfChain(env, c)|);
    ChainTags(env, c, tags0);
    GroupTagsAreSelectors(env, c, tags0);
    HandedTagsOfChain(env, c, MembersOfChain(env, c), |MembersOfChain(env, c)|);
    StoredAllContents(earlier, outs);
    forall i | 0 <= i < |outs|
      ensures Rebuilt(outs, q, r)[i] == HandOver(env, handed, outs[i])
    {
      OneBalanced(env, handed, p, table, q, r, outs[i]);
    }
  }

  lemma OneBalanced(env: Env, handed: set<Tag>, p: map<Tag, seq<Offer>>, table: map<Tag, Outbound>,
                    q: map<Tag, seq<Offer>>, r: map<Tag, Outbound>, o: Outbound)
    requires HandedOver(env, handed, p, table, q, r) && o.tag !in p
    requires o.tag in table && table[o.tag] == o && (o.tag in handed ==> o.Selector?)
    ensures Rebuilt([o], q, r)[0] == HandOver(env, handed, o)
  {
  }

  /** Tags of other chains and nodes are left alone. */
  lemma OthersStay(env: Env, c: Id, tags0: set<Tag>, p: map<Tag, seq<Offer>>, earlier: map<Tag, Outbound>,
                   table: map<Tag, Outbound>, q: map<Tag, seq<Offer>>, r: map<Tag, Outbound>)
    requires Compiled(env, c, tags0, true) && FreshFor(c, earlier.Keys)
    requires table == StoredAll(earlier, ChainOuts(env, c, tags0))
    requires HandedOver(env, GroupTagsOf(env, c, MembersOfChain(env, c), |MembersOfChain(env, c)|), p, table, q, r)
    ensures forall t :: t in earlier ==> t in r && r[t] == earlier[t]
  {
    ChainTags(env, c, tags0);
    HandedTagsOfChain(env, c, MembersOfChain(env, c), |MembersOfChain(env, c)|);
    StoredAllContents(earlier, ChainOuts(env, c, tags0));
  }
}
