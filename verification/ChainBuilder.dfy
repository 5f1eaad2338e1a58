/** The chain compiler as it runs: it appends outbounds and marks tags and visited groups in place. */
module ChainBuilder {
  import opened Wrappers
  import opened Ids
  import opened GroupGraph
  import opened ConfigModel
  import opened TagCodec
  import opened Outbounds
  import opened ChainCompiler

  datatype Outcome = Done(tag: Tag, last: Option<Outbound>) | Stopped(error: Error)

  datatype ManyOutcome = DoneAll(tags: seq<Tag>) | StoppedAll(error: Error)

  function Prepend(tags: seq<Tag>, r: Steps): Steps {
    match r
    case BuiltAll(st, ts) => BuiltAll(st, tags + ts)
    case FailedAll(e) => r
  }

  /** The functional step and the outcome with its new state agree. */
  ghost predicate Agrees(r: Step, out: Outcome, st: State) {
    match r
    case Built(s, t, l) => out == Done(t, l) && st == s
    case Failed(e) => out == Stopped(e)
  }

  ghost predicate AgreesAll(r: Steps, out: ManyOutcome, st: State) {
    match r
    case BuiltAll(s, ts) => out == DoneAll(ts) && st == s
    case FailedAll(e) => out == StoppedAll(e)
  }

  class Builder {
    const env: Env
    const chain: Id
    var outbounds: seq<Outbound>
    var outboundTags: set<Tag>
    var visitingGroups: set<Id>

    constructor (env: Env, chain: Id, taken: set<Tag>)
      ensures this.env == env && this.chain == chain && visitingGroups == {}
      ensures Now() == State([], taken)
    {
      this.env := env;
      this.chain := chain;
      outbounds := [];
      outboundTags := taken;
      visitingGroups := {};
    }

    function Now(): State
      reads this
    {
      State(outbounds, outboundTags)
    }

    method Append(o: Outbound)
      modifies this`outbounds, this`outboundTags
      ensures Now() == Emit(old(Now()), o)
    {
      outbounds := outbounds + [o];
      outboundTags := outboundTags + {o.tag};
    }

    method NodeMemberOutbound(n: Id, tag: Tag, detour: Option<Tag>) returns (out: Outcome)
      modifies this`outbounds, this`outboundTags
      ensures Agrees(BuildNode(env, n, tag, detour, old(Now())), out, Now())
    {
      if tag in outboundTags {
        return Done(tag, None);
      }
      if n !in env.buildable {
        return Stopped(RawBuildError(n));
      }
      var o := NodeOut(tag, n, detour);
      Append(o);
      return Done(tag, Some(o));
    }

    method GroupNodeOutbounds(i: nat, nodes: seq<Id>, detour: Option<Tag>) returns (out: ManyOutcome)
      modifies this`outbounds, this`outboundTags
      ensures AgreesAll(BuildGroupNodes(env, chain, i, nodes, 0, detour, old(Now())), out, Now())
    {
      ghost var whole := BuildGroupNodes(env, chain, i, nodes, 0, detour, Now());
      var tags: seq<Tag> := [];
      for k := 0 to |nodes|
        invariant whole == Prepend(tags, BuildGroupNodes(env, chain, i, nodes, k, detour, Now()))
      {
        if !Plain(env, nodes[k]) {
          return StoppedAll(BadChain);
        }
        var r := NodeMemberOutbound(nodes[k], Tag.GroupNode(chain, i, k, nodes[k]), detour);
        if r.Stopped? {
          return StoppedAll(NodeBuildError(nodes[k]));
        }
        PrependMore(tags, r.tag, BuildGroupNodes(env, chain, i, nodes, k + 1, detour, Now()));
        tags := tags + [r.tag];
      }
      return DoneAll(tags);
    }

    method GroupOutbounds(i: nat, g: Id, detour: Option<Tag>) returns (out: Outcome)
      requires g in env.db.groups
      modifies this
      ensures visitingGroups == old(visitingGroups)
      ensures Agrees(BuildGroup(env, chain, i, g, detour, old(Now()), old(visitingGroups)), out, Now())
      decreases |env.db.groups.Keys - visitingGroups|, 0, 0
    {
      if g in visitingGroups {
        return Stopped(CyclicGroup(g));
      }
      var tag := Tag.ChainGroup(chain, i, g);
      if tag in outboundTags {
        return Done(tag, None);
      }
      ghost var before := visitingGroups;
      visitingGroups := visitingGroups + {g};
      var members := ExitTags(Exits(env, g));
      var nodes := GroupNodeOutbounds(i, GroupNodes(env, g), detour);
      if nodes.StoppedAll? {
        visitingGroups := visitingGroups - {g};
        return Stopped(nodes.error);
      }
      SubsetShrinks(env.db.groups.Keys, before, g);
      KnownContents(Unique(env.db.groups[g].groupIds), env.db.groups.Keys);
      var children := ChildOutbounds(i, ChildGroups(env, g), detour);
      visitingGroups := visitingGroups - {g};
      if children.StoppedAll? {
        return Stopped(children.error);
      }
      Append(Selector(tag, MemberTags(members + nodes.tags + children.tags)));
      return Done(tag, None);
    }

    method ChildOutbounds(i: nat, children: seq<Id>, detour: Option<Tag>) returns (out: ManyOutcome)
      requires forall x :: x in children ==> x in env.db.groups
      modifies this
      ensures visitingGroups == old(visitingGroups)
      ensures AgreesAll(BuildChildren(env, chain, i, children, detour, old(Now()), old(visitingGroups)), out, Now())
      decreases |env.db.groups.Keys - visitingGroups|, 1, |children|
    {
      ghost var visiting := visitingGroups;
      ghost var whole := BuildChildren(env, chain, i, children, detour, Now(), visiting);
      var tags: seq<Tag> := [];
      for k := 0 to |children|
        invariant visitingGroups == visiting
        invariant whole == Prepend(tags, BuildChildren(env, chain, i, children[k..], detour, Now(), visiting))
      {
        assert children[k..][0] == children[k] && children[k..][1..] == children[k + 1..];
        var r := GroupOutbounds(i, children[k], detour);
        if r.Stopped? {
          return StoppedAll(r.error);
        }
        PrependMore(tags, r.tag, BuildChildren(env, chain, i, children[k + 1..], detour, Now(), visiting));
        tags := tags + [r.tag];
      }
      return DoneAll(tags);
    }

    method TerminalNodeOutbounds(i: nat, nodes: seq<Id>, final: Id, detour: Option<Tag>) returns (out: ManyOutcome)
      modifies this`outbounds, this`outboundTags
      ensures AgreesAll(BuildTerminalNodes(env, chain, i, nodes, 0, final, detour, old(Now())), out, Now())
    {
      ghost var whole := BuildTerminalNodes(env, chain, i, nodes, 0, final, detour, Now());
      var tags: seq<Tag> := [];
      for k := 0 to |nodes|
        invariant whole == Prepend(tags, BuildTerminalNodes(env, chain, i, nodes, k, final, detour, Now()))
      {
        if !Plain(env, nodes[k]) {
          return StoppedAll(BadChain);
        }
        var r := NodeMemberOutbound(nodes[k], Tag.GroupNode(chain, i, k, nodes[k]), detour);
        if r.Stopped? {
          return StoppedAll(r.error);
        }
        var f := NodeMemberOutbound(final, Tag.Terminal(chain, i, k, final), Some(r.tag));
        if f.Stopped? {
          return StoppedAll(f.error);
        }
        PrependMore(tags, f.tag, BuildTerminalNodes(env, chain, i, nodes, k + 1, final, detour, Now()));
        tags := tags + [f.tag];
      }
      return DoneAll(tags);
    }

    /** The terminal rewrite; handled is false when it declines, and then nothing has been emitted. */
    method TerminalOutbounds(i: nat, g: Id, final: Id, detour: Option<Tag>) returns (handled: bool, out: Outcome)
      modifies this`outbounds, this`outboundTags
      ensures var t := BuildTerminal(env, chain, i, g, final, detour, old(Now()));
              handled == t.Handled? && (handled ==> Agrees(t.step, out, Now())) && (!handled ==> Now() == old(Now()))
    {
      out := Stopped(BadChain);
      if g !in env.db.groups {
        return true, out;
      }
      if env.db.groups[g].groupIds != [] || Exits(env, g) != [] {
        return false, out;
      }
      if !Plain(env, final) {
        return true, out;
      }
      var tag := Tag.ChainGroup(chain, i, g);
      if tag in outboundTags {
        return true, Done(tag, None);
      }
      var nodes := GroupNodes(env, g);
      if nodes == [] {
        return false, out;
      }
      ghost var before := Now();
      var r := TerminalNodeOutbounds(i, nodes, final, detour);
      if r.StoppedAll? {
        return true, Stopped(r.error);
      }
      TerminalTagsExist(env, chain, i, nodes, final, detour, before);
      Append(Selector(tag, UniqueTags(r.tags)));
      return true, Done(tag, None);
    }

    method MemberOutbounds(i: nat, m: Member, detour: Option<Tag>) returns (out: Outcome)
      requires visitingGroups == {}
      modifies this
      ensures visitingGroups == {}
      ensures Agrees(BuildMember(env, chain, i, m, detour, old(Now())), out, Now())
    {
      match m
      case NodeMember(n) =>
        if !Plain(env, n) {
          return Stopped(BadChain);
        }
        out := NodeMemberOutbound(n, Tag.ChainNode(chain, i, n), detour);
      case GroupMember(g) =>
        if g !in env.db.groups {
          return Stopped(BadChain);
        }
        out := GroupOutbounds(i, g, detour);
    }

    /** The member loop of buildChainRuntimeOutbounds. */
    method AllMemberOutbounds(members: seq<Member>) returns (out: Outcome)
      requires visitingGroups == {}
      modifies this
      ensures Agrees(BuildMembers(env, chain, members, 0, Built(old(Now()), Direct, None), true), out, Now())
    {
      ghost var whole := BuildMembers(env, chain, members, 0, Built(Now(), Direct, None), true);
      var last := Done(Direct, None);
      for k := 0 to |members|
        invariant visitingGroups == {} && last.Done?
        invariant whole == BuildMembers(env, chain, members, k, Built(Now(), last.tag, last.last), true)
      {
        var detour := if k == 0 then None else Some(last.tag);
        if EndsInGroupNode(members, k) {
          var handled, r := TerminalOutbounds(k, members[k].id, members[k + 1].id, detour);
          if handled {
            return r;
          }
        }
        var r := MemberOutbounds(k, members[k], detour);
        if r.Stopped? {
          return r;
        }
        last := r;
      }
      return last;
    }

    /** buildNodeRuntimeOutbounds for a chain: its members, then the alias. */
    method ChainOutbounds() returns (out: Outcome)
      requires visitingGroups == {} && chain in env.db.nodes
      modifies this
      ensures Agrees(BuildChain(env, chain, old(Now()), true), out, Now())
    {
      var members := NormalMembers(env.db.nodes[chain].members);
      if |members| < 2 {
        return Stopped(BadChain);
      }
      var last := AllMemberOutbounds(members);
      if last.Stopped? {
        return last;
      }
      if NodeTag(chain) !in outboundTags {
        Append(Alias(NodeTag(chain), last.tag, last.last));
      }
      return Done(NodeTag(chain), None);
    }
  }

  lemma PrependMore(tags: seq<Tag>, t: Tag, rest: Steps)
    ensures Prepend(tags, Prepend([t], rest)) == Prepend(tags + [t], rest)
  {
    if rest.BuiltAll? {
      assert tags + ([t] + rest.tags) == tags + [t] + rest.tags;
    }
  }

  lemma TerminalTagsExist(env: Env, c: Id, i: nat, nodes: seq<Id>, final: Id, detour: Option<Tag>, st: State)
    requires nodes != []
    ensures var r := BuildTerminalNodes(env, c, i, nodes, 0, final, detour, st);
            r.BuiltAll? ==> UniqueTags(r.tags) != []
  {
    var r := BuildTerminalNodes(env, c, i, nodes, 0, final, detour, st);
    if r.BuiltAll? {
      UniqueTagsContents(r.tags);
      assert r.tags[0] in UniqueTags(r.tags);
    }
  }
}
