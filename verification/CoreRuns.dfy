/** Whole runs of a core, one step after the other: member events, policy changes, groups that come and go, and
    syncs that succeed or stop half way. They leave no tombstone behind, so every sync reaches its plan. */
module CoreRuns {
  import opened Ids
  import opened NodeHealth
  import opened Balancing
  import opened GroupEvents
  import opened Reconcile
  import opened Convergence

  datatype Act =
    | Happens(gt: Id, e: Event, now: int)
    | Upsert(gt: Id, policy: Policy)
    | RemoveGroup(gt: Id)
    | SyncGroup(plan: GroupPlan, stale: seq<Id>, order: seq<Id>, refused: set<Id>, now: int)

  /** Members join and leave through syncs only, and a sync starts on the group's present members. */
  ghost predicate Admissible(c: Core, a: Act) {
    match a
    case Happens(gt, e, _) => gt in c.groups && !e.AddNode? && !e.RemoveNode? && !e.Collect?
    case Upsert(gt, _) => true
    case RemoveGroup(gt) => gt in c.groups
    case SyncGroup(p, stale, order, _, _) => Starts(c, p, stale, order)
  }

  function EmptyGroup(p: Policy): Live {
    Live(Group(map[], [], "", Normalized(p), 0, 0), map[])
  }

  ghost function Perform(c: Core, a: Act, shuffle: seq<Id> -> seq<Id>): Core
    requires Admissible(c, a)
  {
    match a
    case Happens(gt, e, now) => WithLive(c, gt, c.groups[gt].(g := Step(c.groups[gt].g, e, now, shuffle)))
    case Upsert(gt, p) =>
      if gt in c.groups then WithLive(c, gt, c.groups[gt].(g := Refresh(c.groups[gt].g, Normalized(p))))
      else WithLive(c.(outbounds := c.outbounds + {gt}), gt, EmptyGroup(p))
    case RemoveGroup(gt) =>
      Free(Core(c.groups - {gt}, c.outbounds - {gt}), TagSet(c.groups[gt], c.groups[gt].g.nodes.Keys))
    case SyncGroup(p, stale, order, refused, now) => Sync(c, p, stale, order, refused, now).core
  }

  ghost predicate Possible(c: Core, acts: seq<Act>, shuffle: seq<Id> -> seq<Id>)
    decreases |acts|
  {
    acts == [] || (Admissible(c, acts[0]) && Possible(Perform(c, acts[0], shuffle), acts[1..], shuffle))
  }

  ghost function Run(c: Core, acts: seq<Act>, shuffle: seq<Id> -> seq<Id>): Core
    requires Possible(c, acts, shuffle)
    decreases |acts|
  {
    if acts == [] then c else Run(Perform(c, acts[0], shuffle), acts[1..], shuffle)
  }

  /** Sound, and nobody is waiting to be collected. */
  ghost predicate Clean(c: Core) {
    Sound(c) && forall gt :: gt in c.groups ==> NoTombstones(c.groups[gt].g)
  }

  // ---------------------------------------------------------------- member events

  lemma {:induction false} DialKeepsKeys(g: Group, ids: seq<Id>, answers: map<Id, DialResult>, now: int)
    ensures DialFrom(g, ids, answers, now).0.nodes.Keys == g.nodes.Keys
    decreases |ids|
  {
    if |ids| > 0 {
      if ids[0] !in g.nodes {
        DialKeepsKeys(g, ids[1..], answers, now);
      } else {
        DialKeepsKeys(FailMember(g, ids[0], g.policy.failureTtl, now), ids[1..], answers, now);
        if Connects(answers, ids[0]) {
          DialKeepsKeys(Reached(g, ids[0], answers[ids[0]].latencyMs), ids[1..], answers, now);
        }
      }
    }
  }

  lemma EventKeepsKeys(g: Group, e: Event, now: int, shuffle: seq<Id> -> seq<Id>)
    requires !e.AddNode? && !e.RemoveNode? && !e.Collect?
    ensures Step(g, e, now, shuffle).nodes.Keys == g.nodes.Keys
  {
    if e.Dial? {
      CandidatesKeepMembers(g, now, shuffle);
      var (h, ids) := Candidates(g, now, shuffle);
      DialKeepsKeys(h, ids, e.answers, now);
    }
    if e.SelectFastest? {
      CandidatesKeepMembers(g, now, shuffle);
    }
  }

  lemma RegroupedIsClean(c: Core, gt: Id, g: Group)
    requires Clean(c) && gt in c.groups && WellFormed(g) && g.nodes.Keys == c.groups[gt].g.nodes.Keys && NoTombstones(g)
    ensures Clean(WithLive(c, gt, c.groups[gt].(g := g)))
  {
  }

  // ---------------------------------------------------------------- the phases of a sync, successful or not

  lemma {:induction false} CreateKeepsGroups(c: Core, tags: seq<Id>, refused: set<Id>)
    ensures Create(c, tags, refused).core.groups == c.groups
    decreases |tags|
  {
    if tags != [] {
      CreateKeepsGroups(c.(outbounds := c.outbounds + {tags[0]}), tags[1..], refused);
    }
  }

  lemma GrownIsClean(c: Core, d: Core, gt: Id, added: set<Id>)
    requires Clean(c) && Grown(c, d, gt, added)
    ensures Clean(d)
  {
    forall x | x in d.groups[gt].g.nodes
      ensures !d.groups[gt].g.nodes[x].tombstoned
    {
      assert x in c.groups[gt].g.nodes || x in added;
    }
  }

  lemma SeatIsClean(c: Core, gt: Id, x: Id, s: Seat, refused: set<Id>)
    requires Clean(c) && gt in c.groups && x != "" && x !in c.groups[gt].g.nodes
             && (x in BUILTINS <==> s.tag in BUILTINS)
    ensures Clean(AddSeat(c, gt, x, s, refused).core)
  {
    CreateKeepsGroups(c, [s.tag], refused);
    if AddSeat(c, gt, x, s, refused).Done? {
      SeatGrows(c, gt, x, s, refused);
      GrownIsClean(c, AddSeat(c, gt, x, s, refused).core, gt, {x});
    }
  }

  lemma MemberIsClean(c: Core, gt: Id, m: Member, refused: set<Id>)
    requires Clean(c) && gt in c.groups && IdOf(m) != "" && IdOf(m) !in c.groups[gt].g.nodes
    requires IdOf(m) in BUILTINS <==> m.tag in BUILTINS
    ensures Clean(AddMember(c, gt, m, refused).core)
  {
    var deps := DropTag(m.outbounds, m.tag);
    CreateKeepsGroups(c, deps, refused);
    if Create(c, deps, refused).Done? {
      SeatIsClean(Create(c, deps, refused).core, gt, IdOf(m), Seat(m.tag, OutboundTags(m)), refused);
    }
  }

  lemma {:induction false} AddMembersIsClean(c: Core, gt: Id, members: seq<Member>, existing: set<Id>, refused: set<Id>)
    requires Clean(c) && gt in c.groups && PlanFine(members)
    requires FreshIds(members, existing, false) !! c.groups[gt].g.nodes.Keys
    ensures Clean(AddMembers(c, gt, members, existing, refused).core)
    decreases |members|
  {
    if members != [] {
      var m, rest := members[0], members[1..];
      FirstMember(members, existing, false);
      if m.builtin || IdOf(m) in existing {
        AddMembersIsClean(c, gt, rest, existing, refused);
      } else {
        MemberIsClean(c, gt, m, refused);
        if AddMember(c, gt, m, refused).Done? {
          MemberGrows(c, gt, m, refused);
          AddMembersIsClean(AddMember(c, gt, m, refused).core, gt, rest, existing, refused);
        }
      }
    }
  }

  lemma {:induction false} AddBuiltinsIsClean(c: Core, gt: Id, members: seq<Member>, existing: set<Id>,
                                              refused: set<Id>)
    requires Clean(c) && gt in c.groups && PlanFine(members)
    requires FreshIds(members, existing, true) !! c.groups[gt].g.nodes.Keys
    ensures Clean(AddBuiltins(c, gt, members, existing, refused).core)
    decreases |members|
  {
    if members != [] {
      var m, rest := members[0], members[1..];
      FirstMember(members, existing, true);
      if !m.builtin || m.id in existing {
        AddBuiltinsIsClean(c, gt, rest, existing, refused);
      } else {
        SeatIsClean(c, gt, IdOf(m), Seat(m.tag, []), refused);
        if AddSeat(c, gt, IdOf(m), Seat(m.tag, []), refused).Done? {
          SeatGrows(c, gt, IdOf(m), Seat(m.tag, []), refused);
          AddBuiltinsIsClean(AddSeat(c, gt, IdOf(m), Seat(m.tag, []), refused).core, gt, rest, existing, refused);
        }
      }
    }
  }

  /** A collection removes every tombstone of the group whose member is ready. */
  lemma CollectIsClean(c: Core, gt: Id, now: int)
    requires Sound(c) && gt in c.groups
    requires forall h :: h in c.groups && h != gt ==> NoTombstones(c.groups[h].g)
    requires forall x :: x in c.groups[gt].g.nodes && c.groups[gt].g.nodes[x].tombstoned ==>
               RemoveReady(c.groups[gt].g.nodes[x], now)
    ensures Clean(CollectIn(c, gt, now)) && CollectIn(c, gt, now).groups.Keys == c.groups.Keys
  {
    CollectSweeps(c, gt, now);
    CollectKeeps(c, gt, now);
  }

  lemma DropIsClean(c: Core, gt: Id, x: Id, tag: Id, now: int)
    requires Clean(c) && gt in c.groups && (x in BUILTINS <==> tag in BUILTINS)
    ensures Clean(DropStale(c, gt, x, tag, now)) && DropStale(c, gt, x, tag, now).groups.Keys == c.groups.Keys
  {
    if x in c.groups[gt].g.nodes {
      var l := c.groups[gt];
      if tag in BUILTINS {
        RegroupedIsClean(c, gt, EnsureSelected(With(l.g, x, l.g.nodes[x].(enabled := false, active := 0)), now));
      } else {
        RemovedIsClean(c, gt, x, now);
        assert DropStale(c, gt, x, tag, now) == CollectIn(Tombstoned(c, gt, x, now), gt, now);
      }
    }
  }

  lemma RemovedIsClean(c: Core, gt: Id, x: Id, now: int)
    requires Clean(c) && gt in c.groups && x in c.groups[gt].g.nodes
    ensures var d := CollectIn(Tombstoned(c, gt, x, now), gt, now);
            Clean(d) && d.groups.Keys == c.groups.Keys
  {
    TombstonedIsSwept(c, gt, x, now);
    CollectIsClean(Tombstoned(c, gt, x, now), gt, now);
  }

  lemma {:induction false} DropAllIsClean(c: Core, gt: Id, stale: seq<Id>, tags: map<Id, Id>, now: int)
    requires Clean(c) && gt in c.groups
    requires forall x :: x in stale ==> x in tags && (x in BUILTINS <==> tags[x] in BUILTINS)
    ensures Clean(DropAll(c, gt, stale, tags, now)) && DropAll(c, gt, stale, tags, now).groups.Keys == c.groups.Keys
    decreases |stale|
  {
    if stale != [] {
      DropIsClean(c, gt, stale[0], tags[stale[0]], now);
      DropAllIsClean(DropStale(c, gt, stale[0], tags[stale[0]], now), gt, stale[1..], tags, now);
    }
  }

  lemma {:induction false} CollectAllIsClean(c: Core, order: seq<Id>, now: int)
    requires Clean(c)
    ensures Clean(CollectAll(c, order, now))
    decreases |order|
  {
    if order != [] {
      if order[0] in c.groups {
        CollectIsClean(c, order[0], now);
      }
      CollectAllIsClean(CollectIn(c, order[0], now), order[1..], now);
    }
  }

  /** Whether a sync succeeds or stops at a refused outbound, it leaves no tombstone. */
  lemma SyncIsClean(c: Core, p: GroupPlan, stale: seq<Id>, order: seq<Id>, refused: set<Id>, now: int)
    requires Clean(c) && Starts(c, p, stale, order)
    ensures Clean(Sync(c, p, stale, order, refused, now).core)
  {
    var gt, e := p.tag, Existing(c, p.tag);
    FreshIdsContents(p.members, e, false);
    AddMembersIsClean(c, gt, p.members, e, refused);
    var out := AddMembers(c, gt, p.members, e, refused);
    if out.Done? {
      AddMembersGrows(c, gt, p.members, e, refused);
      DropAllIsClean(out.core, gt, stale, TagTable(c, gt), now);
      AfterDrops(c, out.core, p, stale, order, refused, now);
    }
  }

  lemma AfterDrops(c: Core, c1: Core, p: GroupPlan, stale: seq<Id>, order: seq<Id>, refused: set<Id>, now: int)
    requires Clean(c) && Starts(c, p, stale, order) && Clean(c1)
    requires AddMembers(c, p.tag, p.members, Existing(c, p.tag), refused) == Done(c1)
    requires Grown(c, c1, p.tag, FreshIds(p.members, Existing(c, p.tag), false))
    requires Clean(DropAll(c1, p.tag, stale, TagTable(c, p.tag), now))
    ensures Clean(Sync(c, p, stale, order, refused, now).core)
  {
    var gt, e := p.tag, Existing(c, p.tag);
    var c2 := DropAll(c1, gt, stale, TagTable(c, gt), now);
    DropAllSweeps(c1, gt, stale, TagTable(c, gt), now);
    BuiltinsNotYetThere(p.members, e);
    AddBuiltinsIsClean(c2, gt, p.members, e, refused);
    var out := AddBuiltins(c2, gt, p.members, e, refused);
    if out.Done? {
      AddBuiltinsGrows(c2, gt, p.members, e, refused);
      LastStepsAreClean(out.core, gt, p.selected, order, now);
    }
  }

  lemma LastStepsAreClean(c: Core, gt: Id, x: Id, order: seq<Id>, now: int)
    requires Clean(c) && gt in c.groups
    ensures Clean(SelectPlanned(c, gt, x, now).core)
    ensures SelectPlanned(c, gt, x, now).Done? ==> Clean(CollectAll(SelectPlanned(c, gt, x, now).core, order, now))
  {
    RegroupedIsClean(c, gt, c.groups[gt].g.(selected := x));
    CollectAllIsClean(SelectPlanned(c, gt, x, now).core, order, now);
  }

  // ---------------------------------------------------------------- runs

  lemma PerformKeepsClean(c: Core, a: Act, shuffle: seq<Id> -> seq<Id>)
    requires Clean(c) && Admissible(c, a)
    ensures Clean(Perform(c, a, shuffle))
  {
    match a
    case Happens(gt, e, now) =>
      var g := c.groups[gt].g;
      EventKeepsKeys(g, e, now, shuffle);
      StepKeepsOrder(g, e, now, shuffle);
      StepLeavesNoTombstone(g, e, now, shuffle);
      RegroupedIsClean(c, gt, Step(g, e, now, shuffle));
    case Upsert(gt, p) =>
      if gt in c.groups {
        RegroupedIsClean(c, gt, Refresh(c.groups[gt].g, Normalized(p)));
      }
    case RemoveGroup(gt) =>
    case SyncGroup(p, stale, order, refused, now) =>
      SyncIsClean(c, p, stale, order, refused, now);
  }

  lemma {:induction false} RunKeepsClean(c: Core, acts: seq<Act>, shuffle: seq<Id> -> seq<Id>)
    requires Clean(c) && Possible(c, acts, shuffle)
    ensures Clean(Run(c, acts, shuffle))
    decreases |acts|
  {
    if acts != [] {
      PerformKeepsClean(c, acts[0], shuffle);
      RunKeepsClean(Perform(c, acts[0], shuffle), acts[1..], shuffle);
    }
  }

  /** After any such run from an empty core, a successful sync of any group leaves exactly the planned members,
      built-ins apart. */
  lemma SyncAfterRunIsExact(acts: seq<Act>, shuffle: seq<Id> -> seq<Id>, p: GroupPlan, stale: seq<Id>, order: seq<Id>,
                            refused: set<Id>, now: int)
    requires Possible(Core(map[], {}), acts, shuffle)
    requires var c := Run(Core(map[], {}), acts, shuffle);
             Starts(c, p, stale, order) && Sync(c, p, stale, order, refused, now).Done?
    ensures var d := Sync(Run(Core(map[], {}), acts, shuffle), p, stale, order, refused, now).core;
            p.tag in d.groups && forall x :: x !in BUILTINS ==> (x in d.groups[p.tag].g.nodes <==> x in PlannedIds(p))
  {
    RunKeepsClean(Core(map[], {}), acts, shuffle);
    SequentialSyncIsExact(Run(Core(map[], {}), acts, shuffle), p, stale, order, refused, now);
  }
}
