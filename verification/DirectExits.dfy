/** When a compiled chain is "one node per member, in order", and what a direct exit inside a group of the
    chain adds to it (service/proxy/runtime_chain.go:302-394). */
module DirectExits {
  import opened Ids
  import opened GroupGraph
  import opened ConfigModel
  import opened TagCodec
  import opened Outbounds
  import opened ChainCompiler
  import opened ChainMeaning
  import opened ChainTheorems

  ghost predicate Fits(env: Env, m: Member, n: Id) {
    match m
    case NodeMember(x) => n == x
    case GroupMember(g) => Offers(env, g, n)
  }

  /** One node per member, in order. */
  ghost predicate OnePerMember(env: Env, members: seq<Member>, h: seq<Id>) {
    |h| == |members| && forall j :: 0 <= j < |members| ==> Fits(env, members[j], h[j])
  }

  /** Member j is a group with a direct exit at or below it. */
  ghost predicate ExitAt(env: Env, members: seq<Member>, j: nat) {
    j < |members| && members[j].GroupMember? && OffersDirect(env, members[j].id)
  }

  /** Somebody can be dialled for this member. */
  ghost predicate Carries(env: Env, m: Member) {
    exists n :: Fits(env, m, n)
  }

  /** Traffic can leave at member j and still pass every later member. */
  ghost predicate Leaks(env: Env, members: seq<Member>, j: nat) {
    ExitAt(env, members, j) && forall x :: j < x < |members| ==> Carries(env, members[x])
  }

  lemma OneMoreMember(env: Env, members: seq<Member>, m: Member, h: seq<Id>)
    ensures OnePerMember(env, members + [m], h) <==>
            |h| == |members| + 1 && OnePerMember(env, members, Init(h)) && Fits(env, m, h[|members|])
  {
    var all := members + [m];
    if OnePerMember(env, all, h) {
      assert all[|members|] == m;
      forall j | 0 <= j < |members|
        ensures Fits(env, members[j], Init(h)[j])
      {
        assert all[j] == members[j];
      }
    } else if |h| == |members| + 1 && OnePerMember(env, members, Init(h)) && Fits(env, m, h[|members|]) {
      forall j | 0 <= j < |all|
        ensures Fits(env, all[j], h[j])
      {
        if j < |members| {
          assert all[j] == members[j] && h[j] == Init(h)[j];
        }
      }
    }
  }

  /** h follows the members after an exit among the first k, up to k. */
  ghost predicate AfterExit(env: Env, members: seq<Member>, k: nat, h: seq<Id>)
    requires k <= |members|
  {
    exists j :: 0 <= j < k && ExitAt(env, members, j) && OnePerMember(env, members[j + 1..k], h)
  }

  lemma AfterExitLess(env: Env, members: seq<Member>, k: nat, h: seq<Id>)
    requires 0 < k <= |members| && AfterExit(env, members, k, h)
    ensures || (h == [] && ExitAt(env, members, k - 1))
            || (|h| > 0 && AfterExit(env, members, k - 1, Init(h)) && Fits(env, members[k - 1], h[|h| - 1]))
  {
    var j :| 0 <= j < k && ExitAt(env, members, j) && OnePerMember(env, members[j + 1..k], h);
    if j < k - 1 {
      SuffixShrinks(env, members, j + 1, k, h);
    }
  }

  lemma SuffixShrinks(env: Env, members: seq<Member>, i: nat, k: nat, h: seq<Id>)
    requires i < k <= |members| && OnePerMember(env, members[i..k], h)
    ensures |h| > 0 && OnePerMember(env, members[i..k - 1], Init(h)) && Fits(env, members[k - 1], h[|h| - 1])
  {
    assert members[i..k] == members[i..k - 1] + [members[k - 1]];
    OneMoreMember(env, members[i..k - 1], members[k - 1], h);
  }

  lemma AfterExitMore(env: Env, members: seq<Member>, k: nat, h: seq<Id>)
    requires 0 < k <= |members| && |h| > 0
    requires AfterExit(env, members, k - 1, Init(h)) && Fits(env, members[k - 1], h[|h| - 1])
    ensures AfterExit(env, members, k, h)
  {
    var j :| 0 <= j < k - 1 && ExitAt(env, members, j) && OnePerMember(env, members[j + 1..k - 1], Init(h));
    SuffixGrows(env, members, j + 1, k, h);
  }

  lemma SuffixGrows(env: Env, members: seq<Member>, i: nat, k: nat, h: seq<Id>)
    requires i < k <= |members| && |h| > 0
    requires OnePerMember(env, members[i..k - 1], Init(h)) && Fits(env, members[k - 1], h[|h| - 1])
    ensures OnePerMember(env, members[i..k], h)
  {
    var all, before := members[i..k], members[i..k - 1];
    forall j | 0 <= j < |all|
      ensures Fits(env, all[j], h[j])
    {
      if j < |before| {
        assert all[j] == before[j] && h[j] == Init(h)[j];
      }
    }
  }

  lemma AfterExitStep(env: Env, members: seq<Member>, k: nat, h: seq<Id>)
    requires 0 < k <= |members|
    ensures AfterExit(env, members, k, h) <==>
            || (h == [] && ExitAt(env, members, k - 1))
            || (|h| > 0 && AfterExit(env, members, k - 1, Init(h)) && Fits(env, members[k - 1], h[|h| - 1]))
  {
    if AfterExit(env, members, k, h) {
      AfterExitLess(env, members, k, h);
    } else if |h| > 0 && AfterExit(env, members, k - 1, Init(h)) && Fits(env, members[k - 1], h[|h| - 1]) {
      AfterExitMore(env, members, k, h);
    } else if h == [] && ExitAt(env, members, k - 1) {
      assert OnePerMember(env, members[k..k], h);
    }
  }

  lemma {:induction false} HopsAreSuffixes(env: Env, members: seq<Member>, k: nat, h: seq<Id>)
    requires k <= |members|
    ensures ChainHops(env, members, k, h) <==> OnePerMember(env, members[..k], h) || AfterExit(env, members, k, h)
  {
    if k > 0 {
      HopsAreSuffixes(env, members, k - 1, Init(h));
      WholeStep(env, members, k, h);
      AfterExitStep(env, members, k, h);
      HopsStep(env, members, k, h);
    }
  }

  lemma WholeStep(env: Env, members: seq<Member>, k: nat, h: seq<Id>)
    requires 0 < k <= |members|
    ensures OnePerMember(env, members[..k], h) <==>
            |h| > 0 && OnePerMember(env, members[..k - 1], Init(h)) && Fits(env, members[k - 1], h[|h| - 1])
  {
    OneMoreMember(env, members[..k - 1], members[k - 1], h);
    assert members[..k] == members[..k - 1] + [members[k - 1]];
  }

  lemma HopsStep(env: Env, members: seq<Member>, k: nat, h: seq<Id>)
    requires 0 < k <= |members|
    ensures ChainHops(env, members, k, h) <==>
            || (h == [] && ExitAt(env, members, k - 1))
            || (|h| > 0 && ChainHops(env, members, k - 1, Init(h)) && Fits(env, members[k - 1], h[|h| - 1]))
  {
  }

  lemma {:induction false} OneOfEach(env: Env, members: seq<Member>) returns (h: seq<Id>)
    requires forall x :: 0 <= x < |members| ==> Carries(env, members[x])
    ensures OnePerMember(env, members, h)
  {
    h := [];
    if |members| > 0 {
      var init, m := members[..|members| - 1], members[|members| - 1];
      var before := OneOfEach(env, init);
      var n :| Fits(env, m, n);
      h := before + [n];
      assert members == init + [m] && Init(h) == before;
      OneMoreMember(env, init, m, h);
    }
  }

  // ---------------------------------------------------------------- compiled chains

  /** A chain that has been compiled under tags none of which are its own. */
  ghost predicate Compiled(env: Env, c: Id, tags0: set<Tag>, rewrite: bool) {
    && c in env.db.nodes && "" !in env.db.groups && FreshFor(c, tags0)
    && BuildChain(env, c, State([], tags0), rewrite).Built?
  }

  function MembersOfChain(env: Env, c: Id): seq<Member>
    requires c in env.db.nodes
  {
    NormalMembers(env.db.nodes[c].members)
  }

  ghost predicate Leaves(env: Env, c: Id, tags0: set<Tag>, rewrite: bool, h: seq<Id>)
    requires Compiled(env, c, tags0, rewrite)
  {
    Routes(BuildChain(env, c, State([], tags0), rewrite).st.outs, NodeTag(c), h)
  }

  /** All ways out of a compiled chain: one node per member, or one node per member after a group with a
      direct exit. */
  lemma ChainLeavesWholeOrAfterExit(env: Env, c: Id, tags0: set<Tag>, rewrite: bool, h: seq<Id>)
    requires Compiled(env, c, tags0, rewrite)
    ensures var members := MembersOfChain(env, c);
            Leaves(env, c, tags0, rewrite, h) <==>
              OnePerMember(env, members, h) || AfterExit(env, members, |members|, h)
  {
    var members := MembersOfChain(env, c);
    ChainMeansItsMembers(env, c, tags0, rewrite, h);
    HopsAreSuffixes(env, members, |members|, h);
    assert members[..|members|] == members;
  }

  /** A compiled chain offers exactly one node per member, in order, if and only if no member leaks: no group of
      the chain has a direct exit after which every member can be passed. */
  lemma ChainIsOneNodePerMemberIff(env: Env, c: Id, tags0: set<Tag>, rewrite: bool)
    requires Compiled(env, c, tags0, rewrite)
    ensures var members := MembersOfChain(env, c);
            (forall h :: Leaves(env, c, tags0, rewrite, h) <==> OnePerMember(env, members, h))
            <==> !exists j :: Leaks(env, members, j)
  {
    var members := MembersOfChain(env, c);
    if j :| Leaks(env, members, j) {
      var h := DirectExitDropsPrefix(env, c, tags0, rewrite, j);
    } else {
      forall h
        ensures Leaves(env, c, tags0, rewrite, h) <==> OnePerMember(env, members, h)
      {
        ChainLeavesWholeOrAfterExit(env, c, tags0, rewrite, h);
        if AfterExit(env, members, |members|, h) {
          SuffixLeaks(env, members, h);
        }
      }
    }
  }

  lemma SuffixLeaks(env: Env, members: seq<Member>, h: seq<Id>)
    requires AfterExit(env, members, |members|, h)
    ensures exists j :: Leaks(env, members, j)
  {
    var j :| 0 <= j < |members| && ExitAt(env, members, j) && OnePerMember(env, members[j + 1..|members|], h);
    forall x | j < x < |members|
      ensures Carries(env, members[x])
    {
      assert members[j + 1..|members|][x - j - 1] == members[x];
      assert Fits(env, members[x], h[x - j - 1]);
    }
    assert Leaks(env, members, j);
  }

  /** A leaking group drops everything up to and including itself: some traffic leaves through the later members
      alone. */
  lemma DirectExitDropsPrefix(env: Env, c: Id, tags0: set<Tag>, rewrite: bool, j: nat) returns (h: seq<Id>)
    requires Compiled(env, c, tags0, rewrite) && Leaks(env, MembersOfChain(env, c), j)
    ensures var members := MembersOfChain(env, c);
            && OnePerMember(env, members[j + 1..], h) && Leaves(env, c, tags0, rewrite, h)
            && !OnePerMember(env, members, h)
  {
    var members := MembersOfChain(env, c);
    h := OneOfEach(env, members[j + 1..]);
    assert members[j + 1..|members|] == members[j + 1..];
    ChainLeavesWholeOrAfterExit(env, c, tags0, rewrite, h);
  }

  /** So a chain over groups without direct exits offers exactly one node per member, whatever exits other groups
      of the tables have. */
  lemma ChainIsOneNodePerMember(env: Env, c: Id, tags0: set<Tag>, rewrite: bool, h: seq<Id>)
    requires Compiled(env, c, tags0, rewrite)
    requires forall g :: GroupMember(g) in MembersOfChain(env, c) ==> !OffersDirect(env, g)
    ensures Leaves(env, c, tags0, rewrite, h) <==> OnePerMember(env, MembersOfChain(env, c), h)
  {
    var members := MembersOfChain(env, c);
    forall j: nat
      ensures !Leaks(env, members, j)
    {
      if j < |members| && members[j].GroupMember? {
        assert GroupMember(members[j].id) in members;
      }
    }
    ChainIsOneNodePerMemberIff(env, c, tags0, rewrite);
  }

  // ---------------------------------------------------------------- a chain that leaks

  /** Chain c over group g, which has a direct exit and no nodes, and node n. */
  function LeakingTables(): Env {
    Env(Db(map["c" := NodeRow(true, [GroupMember("g"), NodeMember("n")], ""), "n" := NodeRow(false, [], "")],
           map["g" := GroupRow(false, [], [])], map[]),
        [], {"n"}, map["g" := [DirectExit]])
  }

  lemma LeakingMembers()
    ensures MembersOfChain(LeakingTables(), "c") == [GroupMember("g"), NodeMember("n")]
  {
    var m := [GroupMember("g"), NodeMember("n")];
    assert m[..1] == [GroupMember("g")] && m[..1][..0] == [];
    assert NormalMembers(m[..1]) == [GroupMember("g")];
  }

  lemma LeakingGroup()
    ensures GroupFine(LeakingTables(), "g") && OffersDirect(LeakingTables(), "g")
  {
    var env := LeakingTables();
    var gr := GraphOf(env.db.groups);
    ReachesSelf(gr, "g");
    assert GroupNodes(env, "g") == [];
    forall x | Reaches(gr, "g", x)
      ensures x == "g"
    {
      if x != "g" {
        var y := ReachesFirst(gr, "g", x);
      }
    }
    assert !OnCycle(gr, "g");
  }

  lemma LeakingIsFine(env: Env)
    requires env == LeakingTables()
    ensures ChainFine(env, [GroupMember("g"), NodeMember("n")]) && "" !in env.db.groups && FreshFor("c", {})
  {
    LeakingGroup();
  }

  lemma LeakingAtFirst(env: Env)
    requires OffersDirect(env, "g")
    ensures Leaks(env, [GroupMember("g"), NodeMember("n")], 0)
  {
    assert Fits(env, NodeMember("n"), "n");
  }

  /** A chain that may leave through its last member alone leaves through that node. */
  lemma LastAlone(env: Env, h: seq<Id>)
    requires OnePerMember(env, [GroupMember("g"), NodeMember("n")][1..], h)
    ensures h == ["n"]
  {
    assert Fits(env, [NodeMember("n")][0], h[0]);
  }

  lemma LeakingCompiles(env: Env, rewrite: bool)
    requires env == LeakingTables()
    ensures Compiled(env, "c", {}, rewrite)
  {
    LeakingIsFine(env);
    LeakingMembers();
    ChainCompilesIff(env, "c", {}, rewrite);
  }

  /** The chain compiles, and traffic leaves it through n alone, past group g. */
  lemma LeakingChain(rewrite: bool)
    ensures Compiled(LeakingTables(), "c", {}, rewrite)
    ensures Leaves(LeakingTables(), "c", {}, rewrite, ["n"])
    ensures !OnePerMember(LeakingTables(), MembersOfChain(LeakingTables(), "c"), ["n"])
  {
    var env := LeakingTables();
    LeakingCompiles(env, rewrite);
    LeakingMembers();
    LeakingGroup();
    LeakingAtFirst(env);
    var h := DirectExitDropsPrefix(env, "c", {}, rewrite, 0);
    LastAlone(env, h);
  }
}
