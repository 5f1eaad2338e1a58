/** What a successful sync leaves behind: exactly the planned members, survivors untouched, and exactly the
    outbounds that somebody still needs. */
module Convergence {
  import opened Ids
  import opened NodeHealth
  import opened Balancing
  import opened GroupEvents
  import opened Reconcile

  /** What the planner guarantees of a member list (runtime_plan.go:1022): every member has an identity,
      once, and the built-ins are exactly direct and block under their own names. */
  ghost predicate PlanFine(members: seq<Member>) {
    && (forall i :: 0 <= i < |members| ==>
          && IdOf(members[i]) != ""
          && (members[i].builtin ==> members[i].id == members[i].tag)
          && (members[i].builtin <==> members[i].tag in BUILTINS)
          && (IdOf(members[i]) in BUILTINS <==> members[i].tag in BUILTINS))
    && (forall i, j :: 0 <= i < j < |members| ==> IdOf(members[i]) != IdOf(members[j]))
  }

  predicate IsFresh(m: Member, existing: set<Id>, builtin: bool) {
    m.builtin == builtin && IdOf(m) !in existing
  }

  function FreshIds(members: seq<Member>, existing: set<Id>, builtin: bool): set<Id> {
    if members == [] then {}
    else
      (if IsFresh(members[0], existing, builtin) then {IdOf(members[0])} else {})
      + FreshIds(members[1..], existing, builtin)
  }

  function FreshTags(members: seq<Member>, existing: set<Id>): set<Id> {
    if members == [] then {}
    else
      (if IsFresh(members[0], existing, false) then (set t | t in OutboundTags(members[0])) else {})
        + FreshTags(members[1..], existing)
  }

  lemma {:induction false} FreshIdsContents(members: seq<Member>, existing: set<Id>, builtin: bool)
    ensures forall x :: x in FreshIds(members, existing, builtin) <==>
              exists i :: 0 <= i < |members| && IsFresh(members[i], existing, builtin) && IdOf(members[i]) == x
  {
    if members != [] {
      var rest := members[1..];
      FreshIdsContents(rest, existing, builtin);
      forall x
        ensures x in FreshIds(members, existing, builtin) <==>
                exists i :: 0 <= i < |members| && IsFresh(members[i], existing, builtin) && IdOf(members[i]) == x
      {
        if x in FreshIds(rest, existing, builtin) {
          var i :| 0 <= i < |rest| && IsFresh(rest[i], existing, builtin) && IdOf(rest[i]) == x;
          assert members[i + 1] == rest[i];
        }
        if i :| 0 <= i < |members| && IsFresh(members[i], existing, builtin) && IdOf(members[i]) == x {
          if i > 0 {
            assert rest[i - 1] == members[i];
          }
        }
      }
    }
  }

  lemma FirstMember(members: seq<Member>, existing: set<Id>, builtin: bool)
    requires PlanFine(members) && members != []
    ensures PlanFine(members[1..]) && IdOf(members[0]) !in FreshIds(members[1..], existing, builtin)
    ensures var m := members[0];
            && IdOf(m) != "" && (m.builtin ==> m.id == m.tag && IdOf(m) == m.id)
            && (m.builtin <==> m.tag in BUILTINS) && (IdOf(m) in BUILTINS <==> m.tag in BUILTINS)
  {
    FreshIdsContents(members[1..], existing, builtin);
  }

  // ---------------------------------------------------------------- adding

  /** Only one group changed, by new members in seats of their own. */
  ghost predicate Grown(c: Core, d: Core, gt: Id, added: set<Id>) {
    && gt in c.groups && d.groups.Keys == c.groups.Keys
    && (forall h :: h in c.groups && h != gt ==> d.groups[h] == c.groups[h])
    && d.groups[gt].g.nodes.Keys == c.groups[gt].g.nodes.Keys + added
    && c.groups[gt].g.nodes.Keys !! added
    && (forall x :: x in c.groups[gt].g.nodes ==>
          d.groups[gt].g.nodes[x] == c.groups[gt].g.nodes[x] && x in d.groups[gt].seats && x in c.groups[gt].seats
            && d.groups[gt].seats[x] == c.groups[gt].seats[x])
    && (forall x :: x in added ==> d.groups[gt].g.nodes[x] == NEW_NODE)
    && Sound(d)
  }

  lemma {:induction false} CreateMakesTags(c: Core, tags: seq<Id>, refused: set<Id>)
    requires Create(c, tags, refused).Done?
    ensures var d := Create(c, tags, refused).core;
            d.groups == c.groups && (forall t :: t in d.outbounds <==> t in c.outbounds || t in tags) && "" !in tags
    decreases |tags|
  {
    if tags != [] {
      CreateMakesTags(c.(outbounds := c.outbounds + {tags[0]}), tags[1..], refused);
      assert tags == [tags[0]] + tags[1..];
    }
  }

  lemma {:induction false} DropTagContents(tags: seq<Id>, tag: Id)
    ensures forall t :: t in DropTag(tags, tag) <==> t in tags && t != tag
  {
    if tags != [] {
      DropTagContents(tags[1..], tag);
      assert tags == [tags[0]] + tags[1..];
    }
  }

  lemma SeatGrows(c: Core, gt: Id, x: Id, s: Seat, refused: set<Id>)
    requires Sound(c) && gt in c.groups && x != "" && x !in c.groups[gt].g.nodes
             && (x in BUILTINS <==> s.tag in BUILTINS)
    requires AddSeat(c, gt, x, s, refused).Done?
    ensures var d := AddSeat(c, gt, x, s, refused).core;
            && Grown(c, d, gt, {x}) && d.groups[gt].seats[x] == s
            && forall t :: t in d.outbounds <==> t in c.outbounds || t == s.tag
  {
    CreateMakesTags(c, [s.tag], refused);
    SeatInOrder(c.groups[gt], x, s);
  }

  lemma SeatInOrder(l: Live, x: Id, s: Seat)
    requires InOrder(l) && x != "" && x !in l.g.nodes && (x in BUILTINS <==> s.tag in BUILTINS)
    ensures InOrder(Seated(l, x, s))
  {
    StepKeepsOrder(l.g, AddNode(x), 0, Unshuffled);
  }

  lemma MemberGrows(c: Core, gt: Id, m: Member, refused: set<Id>)
    requires Sound(c) && gt in c.groups && IdOf(m) != "" && IdOf(m) !in c.groups[gt].g.nodes
    requires IdOf(m) in BUILTINS <==> m.tag in BUILTINS
    requires AddMember(c, gt, m, refused).Done?
    ensures var d := AddMember(c, gt, m, refused).core;
            && Grown(c, d, gt, {IdOf(m)}) && d.groups[gt].seats[IdOf(m)] == Seat(m.tag, OutboundTags(m))
            && forall t :: t in d.outbounds <==> t in c.outbounds || t in OutboundTags(m)
  {
    var deps := DropTag(m.outbounds, m.tag);
    CreateMakesTags(c, deps, refused);
    DropTagContents(m.outbounds, m.tag);
    var d := Create(c, deps, refused).core;
    SeatGrows(d, gt, IdOf(m), Seat(m.tag, OutboundTags(m)), refused);
    var all := if m.tag in m.outbounds then m.outbounds else m.outbounds + [m.tag];
    UniqueContents(all);
  }

  lemma GrownTwice(a: Core, b: Core, c: Core, gt: Id, s: set<Id>, t: set<Id>)
    requires Grown(a, b, gt, s) && Grown(b, c, gt, t)
    ensures Grown(a, c, gt, s + t)
  {
  }

  lemma GrownByNone(c: Core, gt: Id)
    requires Sound(c) && gt in c.groups
    ensures Grown(c, c, gt, {})
  {
  }

  lemma {:induction false} AddMembersGrows(c: Core, gt: Id, members: seq<Member>, existing: set<Id>, refused: set<Id>)
    requires Sound(c) && gt in c.groups && PlanFine(members)
    requires FreshIds(members, existing, false) !! c.groups[gt].g.nodes.Keys
    requires AddMembers(c, gt, members, existing, refused).Done?
    ensures var d := AddMembers(c, gt, members, existing, refused).core;
            && Grown(c, d, gt, FreshIds(members, existing, false))
            && forall t :: t in d.outbounds <==> t in c.outbounds || t in FreshTags(members, existing)
    decreases |members|
  {
    if members == [] {
      GrownByNone(c, gt);
    } else {
      var m, rest := members[0], members[1..];
      FirstMember(members, existing, false);
      if m.builtin || IdOf(m) in existing {
        AddMembersGrows(c, gt, rest, existing, refused);
      } else {
        MemberGrows(c, gt, m, refused);
        var d := AddMember(c, gt, m, refused).core;
        AddMembersGrows(d, gt, rest, existing, refused);
        GrownTwice(c, d, AddMembers(d, gt, rest, existing, refused).core, gt, {IdOf(m)},
                   FreshIds(rest, existing, false));
      }
    }
  }

  /** Built-ins bring only their own tags. */
  ghost predicate BuiltinSeats(d: Core, gt: Id, added: set<Id>) {
    gt in d.groups && added <= BUILTINS
    && forall x :: x in added ==>
         x in d.groups[gt].seats && forall t :: t in TagsOf(d.groups[gt].seats[x]) ==> t in BUILTINS
  }

  lemma {:induction false} AddBuiltinsGrows(c: Core, gt: Id, members: seq<Member>, existing: set<Id>, refused: set<Id>)
    requires Sound(c) && gt in c.groups && PlanFine(members)
    requires FreshIds(members, existing, true) !! c.groups[gt].g.nodes.Keys
    requires AddBuiltins(c, gt, members, existing, refused).Done?
    ensures var d := AddBuiltins(c, gt, members, existing, refused).core;
            && Grown(c, d, gt, FreshIds(members, existing, true))
            && BuiltinSeats(d, gt, FreshIds(members, existing, true))
            && (forall t :: t in d.outbounds ==> t in c.outbounds || t in BUILTINS) && c.outbounds <= d.outbounds
    decreases |members|
  {
    if members == [] {
      GrownByNone(c, gt);
    } else {
      var m, rest := members[0], members[1..];
      FirstMember(members, existing, true);
      if !m.builtin || m.id in existing {
        AddBuiltinsGrows(c, gt, rest, existing, refused);
      } else {
        var s := Seat(m.tag, []);
        SeatGrows(c, gt, IdOf(m), s, refused);
        var d := AddSeat(c, gt, IdOf(m), s, refused).core;
        AddBuiltinsGrows(d, gt, rest, existing, refused);
        var e := AddBuiltins(d, gt, rest, existing, refused).core;
        GrownTwice(c, d, e, gt, {IdOf(m)}, FreshIds(rest, existing, true));
        SeatsJoin(d, e, gt, IdOf(m), s, FreshIds(rest, existing, true));
      }
    }
  }

  lemma SeatsJoin(d: Core, e: Core, gt: Id, x: Id, s: Seat, more: set<Id>)
    requires Grown(d, e, gt, more) && BuiltinSeats(e, gt, more)
    requires x in BUILTINS && x in d.groups[gt].g.nodes && x in d.groups[gt].seats && d.groups[gt].seats[x] == s
    requires forall t :: t in TagsOf(s) ==> t in BUILTINS
    ensures BuiltinSeats(e, gt, {x} + more)
  {
  }

  // ---------------------------------------------------------------- dropping

  lemma SameMembersSwept(c: Core, d: Core)
    requires Sound(c) && Sound(d) && d.outbounds == c.outbounds && d.groups.Keys == c.groups.Keys
    requires forall h :: h in c.groups ==>
               d.groups[h].g.nodes.Keys == c.groups[h].g.nodes.Keys && d.groups[h].seats == c.groups[h].seats
    ensures Swept(c, d)
  {
    forall t
      ensures !LostTag(c, d, t)
    {
    }
  }

  /** How the members that are not built in fare while stale ones are dropped: the dropped are gone, the
      others are there unless they were ready for collection, and whoever is there has not changed. */
  ghost predicate Dropped(c: Core, d: Core, gt: Id, stale: seq<Id>, now: int) {
    && gt in c.groups && gt in d.groups
    && forall x :: x !in BUILTINS ==>
         && (x in d.groups[gt].g.nodes ==>
               x in c.groups[gt].g.nodes && x !in stale && d.groups[gt].g.nodes[x] == c.groups[gt].g.nodes[x])
         && (x in c.groups[gt].g.nodes && x !in stale && !RemoveReady(c.groups[gt].g.nodes[x], now) ==>
               x in d.groups[gt].g.nodes)
  }

  lemma DisableSweeps(c: Core, gt: Id, x: Id, tag: Id, now: int)
    requires Sound(c) && gt in c.groups && x in c.groups[gt].g.nodes && x in BUILTINS && tag in BUILTINS
    ensures Swept(c, DropStale(c, gt, x, tag, now)) && Dropped(c, DropStale(c, gt, x, tag, now), gt, [x], now)
  {
    var l := c.groups[gt];
    RegroupedIsSwept(c, gt, EnsureSelected(With(l.g, x, l.g.nodes[x].(enabled := false, active := 0)), now));
  }

  /** Changing a group without changing who is in it sweeps nothing. */
  lemma RegroupedIsSwept(c: Core, gt: Id, g: Group)
    requires Sound(c) && gt in c.groups && WellFormed(g) && g.nodes.Keys == c.groups[gt].g.nodes.Keys
    ensures Swept(c, WithLive(c, gt, c.groups[gt].(g := g)))
  {
    SameMembersSwept(c, WithLive(c, gt, c.groups[gt].(g := g)));
  }

  ghost function Tombstoned(c: Core, gt: Id, x: Id, now: int): Core
    requires gt in c.groups && x in c.groups[gt].g.nodes
  {
    var l := c.groups[gt];
    var gone := Tombstone(l.g.nodes[x], l.g.policy.removeTtl, now).(active := 0);
    WithLive(c, gt, l.(g := EnsureSelected(With(l.g, x, gone), now)))
  }

  lemma TombstonedIsSwept(c: Core, gt: Id, x: Id, now: int)
    requires Sound(c) && gt in c.groups && x in c.groups[gt].g.nodes
    ensures var d := Tombstoned(c, gt, x, now);
            && Swept(c, d) && Sound(d) && gt in d.groups && d.groups[gt].g.nodes.Keys == c.groups[gt].g.nodes.Keys
            && RemoveReady(d.groups[gt].g.nodes[x], now)
            && forall y :: y in c.groups[gt].g.nodes && y != x ==> d.groups[gt].g.nodes[y] == c.groups[gt].g.nodes[y]
  {
    var l := c.groups[gt];
    var gone := Tombstone(l.g.nodes[x], l.g.policy.removeTtl, now).(active := 0);
    RegroupedIsSwept(c, gt, EnsureSelected(With(l.g, x, gone), now));
  }

  lemma RemoveSweeps(c: Core, gt: Id, x: Id, tag: Id, now: int)
    requires Sound(c) && gt in c.groups && x in c.groups[gt].g.nodes && x !in BUILTINS && tag !in BUILTINS
    ensures Swept(c, DropStale(c, gt, x, tag, now)) && Dropped(c, DropStale(c, gt, x, tag, now), gt, [x], now)
  {
    var d := Tombstoned(c, gt, x, now);
    TombstonedIsSwept(c, gt, x, now);
    CollectSweeps(d, gt, now);
    CollectKeeps(d, gt, now);
    SweptTwice(c, d, CollectIn(d, gt, now));
    assert DropStale(c, gt, x, tag, now) == CollectIn(d, gt, now);
  }

  lemma DropStaleSweeps(c: Core, gt: Id, x: Id, tag: Id, now: int)
    requires Sound(c) && gt in c.groups && (x in BUILTINS <==> tag in BUILTINS)
    ensures Swept(c, DropStale(c, gt, x, tag, now)) && Dropped(c, DropStale(c, gt, x, tag, now), gt, [x], now)
  {
    if x !in c.groups[gt].g.nodes {
      SweptItself(c);
    } else if x in BUILTINS {
      DisableSweeps(c, gt, x, tag, now);
    } else {
      RemoveSweeps(c, gt, x, tag, now);
    }
  }

  lemma {:induction false} DropAllSweeps(c: Core, gt: Id, stale: seq<Id>, tags: map<Id, Id>, now: int)
    requires Sound(c) && gt in c.groups
    requires forall x :: x in stale ==> x in tags && (x in BUILTINS <==> tags[x] in BUILTINS)
    ensures Swept(c, DropAll(c, gt, stale, tags, now)) && Dropped(c, DropAll(c, gt, stale, tags, now), gt, stale, now)
    decreases |stale|
  {
    if stale == [] {
      SweptItself(c);
    } else {
      var x := stale[0];
      var d := DropStale(c, gt, x, tags[x], now);
      DropStaleSweeps(c, gt, x, tags[x], now);
      DropAllSweeps(d, gt, stale[1..], tags, now);
      SweptTwice(c, d, DropAll(d, gt, stale[1..], tags, now));
      assert stale == [x] + stale[1..];
    }
  }

  // ---------------------------------------------------------------- one whole sync

  /** The four cores a successful sync goes through. */
  datatype Stages = Stages(c1: Core, c2: Core, c3: Core, c4: Core)

  ghost function StagesOf(c: Core, p: GroupPlan, stale: seq<Id>, order: seq<Id>, refused: set<Id>, now: int): Stages
    requires Sync(c, p, stale, order, refused, now).Done?
  {
    var c1 := AddMembers(c, p.tag, p.members, Existing(c, p.tag), refused).core;
    var c2 := DropAll(c1, p.tag, stale, TagTable(c, p.tag), now);
    var c3 := AddBuiltins(c2, p.tag, p.members, Existing(c, p.tag), refused).core;
    Stages(c1, c2, c3, SelectPlanned(c3, p.tag, p.selected, now).core)
  }

  /** A sync starts on a sound core holding the group, drops exactly the members that are not planned, and
      collects every group. */
  ghost predicate Starts(c: Core, p: GroupPlan, stale: seq<Id>, order: seq<Id>) {
    && Sound(c) && p.tag in c.groups && PlanFine(p.members)
    && (forall x :: x in stale <==> x in c.groups[p.tag].g.nodes && x !in PlannedIds(p))
    && (forall gt :: gt in order <==> gt in c.groups)
  }

  lemma FirstStages(c: Core, p: GroupPlan, stale: seq<Id>, order: seq<Id>, refused: set<Id>, now: int)
    requires Starts(c, p, stale, order) && Sync(c, p, stale, order, refused, now).Done?
    ensures var s, e := StagesOf(c, p, stale, order, refused, now), Existing(c, p.tag);
            && Grown(c, s.c1, p.tag, FreshIds(p.members, e, false))
            && (forall t :: t in s.c1.outbounds <==> t in c.outbounds || t in FreshTags(p.members, e))
            && Swept(s.c1, s.c2) && Dropped(s.c1, s.c2, p.tag, stale, now)
  {
    var gt, e := p.tag, Existing(c, p.tag);
    FreshIdsContents(p.members, e, false);
    AddMembersGrows(c, gt, p.members, e, refused);
    var c1 := AddMembers(c, gt, p.members, e, refused).core;
    DropAllSweeps(c1, gt, stale, TagTable(c, gt), now);
  }

  lemma SelectingIsSwept(c: Core, gt: Id, x: Id, now: int)
    requires Sound(c) && gt in c.groups && SelectPlanned(c, gt, x, now).Done?
    ensures var d := SelectPlanned(c, gt, x, now).core;
            Swept(c, d) && gt in d.groups && d.groups[gt].g.nodes == c.groups[gt].g.nodes
  {
    SweptItself(c);
    RegroupedIsSwept(c, gt, c.groups[gt].g.(selected := x));
  }

  lemma LastStages(c3: Core, gt: Id, x: Id, order: seq<Id>, now: int)
    requires Sound(c3) && gt in c3.groups && gt in order && SelectPlanned(c3, gt, x, now).Done?
    ensures var d := CollectAll(SelectPlanned(c3, gt, x, now).core, order, now);
            && Swept(c3, d) && gt in d.groups
            && (forall x :: x in d.groups[gt].g.nodes <==>
                  x in c3.groups[gt].g.nodes && !RemoveReady(c3.groups[gt].g.nodes[x], now))
            && (forall x :: x in d.groups[gt].g.nodes ==> d.groups[gt].g.nodes[x] == c3.groups[gt].g.nodes[x])
  {
    var c4 := SelectPlanned(c3, gt, x, now).core;
    SelectingIsSwept(c3, gt, x, now);
    var d := CollectAll(c4, order, now);
    CollectAllSweeps(c4, order, gt, now);
    assert gt in d.groups;
    SweptTwice(c3, c4, d);
  }

  lemma MiddleStage(c: Core, p: GroupPlan, stale: seq<Id>, order: seq<Id>, refused: set<Id>, now: int)
    requires Starts(c, p, stale, order) && Sync(c, p, stale, order, refused, now).Done?
    ensures var s, b := StagesOf(c, p, stale, order, refused, now), FreshIds(p.members, Existing(c, p.tag), true);
            && Grown(s.c2, s.c3, p.tag, b) && BuiltinSeats(s.c3, p.tag, b)
            && (forall t :: t in s.c3.outbounds ==> t in s.c2.outbounds || t in BUILTINS)
               && s.c2.outbounds <= s.c3.outbounds
  {
    FirstStages(c, p, stale, order, refused, now);
    var s := StagesOf(c, p, stale, order, refused, now);
    BuiltinsNotYetThere(p.members, Existing(c, p.tag));
    AddBuiltinsGrows(s.c2, p.tag, p.members, Existing(c, p.tag), refused);
  }

  lemma BuiltinsNotYetThere(members: seq<Member>, existing: set<Id>)
    requires PlanFine(members)
    ensures FreshIds(members, existing, true) !! existing
    ensures FreshIds(members, existing, true) !! FreshIds(members, existing, false)
  {
    FreshIdsContents(members, existing, true);
    FreshIdsContents(members, existing, false);
  }

  /** Convergence: after a successful sync the members that are not built in are exactly the planned ones,
      except a planned member that was already tombstoned and ready for collection; survivors keep their
      health, newcomers start afresh. */
  lemma SyncConverges(c: Core, p: GroupPlan, stale: seq<Id>, order: seq<Id>, refused: set<Id>, now: int)
    requires Starts(c, p, stale, order) && Sync(c, p, stale, order, refused, now).Done?
    ensures var before, d := c.groups[p.tag].g.nodes, Sync(c, p, stale, order, refused, now).core;
            && Sound(d) && p.tag in d.groups
            && forall x :: x !in BUILTINS ==>
                 && (x in d.groups[p.tag].g.nodes <==>
                       x in PlannedIds(p) && !(x in before && RemoveReady(before[x], now)))
                 && (x in d.groups[p.tag].g.nodes ==>
                       d.groups[p.tag].g.nodes[x] == if x in before then before[x] else NEW_NODE)
  {
    FirstStages(c, p, stale, order, refused, now);
    MiddleStage(c, p, stale, order, refused, now);
    EndSweeps(c, p, stale, order, refused, now);
    var gt, s := p.tag, StagesOf(c, p, stale, order, refused, now);
    var d := Sync(c, p, stale, order, refused, now).core;
    PlannedAreFreshOrThere(p, Existing(c, gt));
    MembersSettle(c.groups[gt].g.nodes, s.c1.groups[gt].g.nodes, s.c2.groups[gt].g.nodes, s.c3.groups[gt].g.nodes,
                  d.groups[gt].g.nodes, FreshIds(p.members, Existing(c, gt), false), stale, PlannedIds(p), now);
  }

  /** The members that are not built in, stage by stage: some join, the stale ones go, the ready ones go. */
  lemma MembersSettle(n0: map<Id, Node>, n1: map<Id, Node>, n2: map<Id, Node>, n3: map<Id, Node>, n4: map<Id, Node>,
                      joined: set<Id>, stale: seq<Id>, planned: set<Id>, now: int)
    requires n1.Keys == n0.Keys + joined && n0.Keys !! joined
    requires forall x :: x in n1 ==> n1[x] == if x in joined then NEW_NODE else n0[x]
    requires forall x :: x !in BUILTINS ==>
               && (x in n2 ==> x in n1 && x !in stale && n2[x] == n1[x])
               && (x in n1 && x !in stale && !RemoveReady(n1[x], now) ==> x in n2)
    requires forall x :: x !in BUILTINS ==> (x in n3 <==> x in n2) && (x in n2 ==> n3[x] == n2[x])
    requires forall x :: x in n4 <==> x in n3 && !RemoveReady(n3[x], now)
    requires forall x :: x in n4 ==> n4[x] == n3[x]
    requires forall x :: x in stale <==> x in n0 && x !in planned
    requires forall x :: x !in BUILTINS && x !in n0 ==> (x in joined <==> x in planned)
    ensures forall x :: x !in BUILTINS ==>
              && (x in n4 <==> x in planned && !(x in n0 && RemoveReady(n0[x], now)))
              && (x in n4 ==> n4[x] == if x in n0 then n0[x] else NEW_NODE)
  {
    assert !RemoveReady(NEW_NODE, now);
  }

  lemma PlannedAreFreshOrThere(p: GroupPlan, existing: set<Id>)
    requires PlanFine(p.members)
    ensures forall x :: x !in BUILTINS && x !in existing ==>
              (x in FreshIds(p.members, existing, false) <==> x in PlannedIds(p))
  {
    FreshIdsContents(p.members, existing, false);
    forall x | x !in BUILTINS && x !in existing
      ensures x in FreshIds(p.members, existing, false) <==> x in PlannedIds(p)
    {
      if x in PlannedIds(p) {
        var i :| 0 <= i < |p.members| && IdOf(p.members[i]) == x;
        assert IsFresh(p.members[i], existing, false);
      }
    }
  }

  lemma BuiltinsReferenceNothingElse(c2: Core, c3: Core, gt: Id, added: set<Id>, t: Id)
    requires Sound(c2) && Grown(c2, c3, gt, added) && BuiltinSeats(c3, gt, added) && t !in BUILTINS
    ensures Referenced(c3, t) <==> Referenced(c2, t)
  {
    if Referenced(c2, t) {
      GrownReferences(c2, c3, gt, added, t);
    }
    if Referenced(c3, t) && t !in c3.groups {
      var h :| h in c3.groups && exists x | x in c3.groups[h].g.nodes :: Uses(c3.groups[h], x, t);
      var x :| x in c3.groups[h].g.nodes && Uses(c3.groups[h], x, t);
      assert Uses(c2.groups[h], x, t);
    }
  }

  lemma GrownReferences(c2: Core, c3: Core, gt: Id, added: set<Id>, t: Id)
    requires Sound(c2) && Grown(c2, c3, gt, added) && Referenced(c2, t)
    ensures Referenced(c3, t)
  {
    if t !in c2.groups {
      var h :| h in c2.groups && exists x | x in c2.groups[h].g.nodes :: Uses(c2.groups[h], x, t);
      var x :| x in c2.groups[h].g.nodes && Uses(c2.groups[h], x, t);
      assert Uses(c3.groups[h], x, t);
    }
  }

  /** The stages of a sync as far as departures are concerned. */
  ghost predicate Passes(c: Core, s: Stages, d: Core, gt: Id, added: set<Id>, builtins: set<Id>) {
    && Sound(c) && Grown(c, s.c1, gt, added) && added !! builtins && builtins !! c.groups[gt].g.nodes.Keys
    && Swept(s.c1, s.c2) && Grown(s.c2, s.c3, gt, builtins) && BuiltinSeats(s.c3, gt, builtins) && Swept(s.c3, d)
    && gt in d.groups && added <= d.groups[gt].g.nodes.Keys
  }

  lemma LostSomewhere(c: Core, s: Stages, d: Core, gt: Id, added: set<Id>, builtins: set<Id>, t: Id)
    requires Passes(c, s, d, gt, added, builtins) && LostTag(c, d, t)
    ensures LostTag(s.c1, s.c2, t) || LostTag(s.c3, d, t)
  {
    var h, x :| h in c.groups && Uses(c.groups[h], x, t) && !(h in d.groups && x in d.groups[h].g.nodes);
    assert Uses(s.c1.groups[h], x, t);
    if x in s.c2.groups[h].g.nodes {
      assert Uses(s.c2.groups[h], x, t);
      assert Uses(s.c3.groups[h], x, t);
    }
  }

  lemma LostEarly(c: Core, s: Stages, d: Core, gt: Id, added: set<Id>, builtins: set<Id>, t: Id)
    requires Passes(c, s, d, gt, added, builtins) && LostTag(s.c1, s.c2, t)
    ensures LostTag(c, d, t)
  {
    var h, x :| h in s.c1.groups && Uses(s.c1.groups[h], x, t) && !(h in s.c2.groups && x in s.c2.groups[h].g.nodes);
    assert h == gt ==> x !in builtins;
    assert x !in s.c3.groups[h].g.nodes;
    assert x !in d.groups[h].g.nodes;
    assert Uses(c.groups[h], x, t);
  }

  lemma LostLate(c: Core, s: Stages, d: Core, gt: Id, added: set<Id>, builtins: set<Id>, t: Id)
    requires Passes(c, s, d, gt, added, builtins) && t !in BUILTINS && LostTag(s.c3, d, t)
    ensures LostTag(c, d, t)
  {
    var h, x :| h in s.c3.groups && Uses(s.c3.groups[h], x, t) && !(h in d.groups && x in d.groups[h].g.nodes);
    assert h == gt ==> x !in builtins;
    assert Uses(s.c2.groups[h], x, t);
    assert Uses(s.c1.groups[h], x, t);
    assert h == gt ==> x !in added;
    assert Uses(c.groups[h], x, t);
  }

  /** The outbounds after a successful sync: the old ones and those built for new members, less exactly the
      ones that a departed member held and nobody references any more; direct and block never go. */
  lemma SyncReleasesExactlyUnused(c: Core, p: GroupPlan, stale: seq<Id>, order: seq<Id>, refused: set<Id>, now: int)
    requires Starts(c, p, stale, order) && Sync(c, p, stale, order, refused, now).Done?
    ensures var d := Sync(c, p, stale, order, refused, now).core;
            && (forall t :: t !in BUILTINS ==>
                  (t in d.outbounds <==>
                    && (t in c.outbounds || t in FreshTags(p.members, Existing(c, p.tag)))
                    && !(LostTag(c, d, t) && !Referenced(d, t))))
            && (forall t :: t in BUILTINS && t in c.outbounds ==> t in d.outbounds)
  {
    var e := Existing(c, p.tag);
    var s := StagesOf(c, p, stale, order, refused, now);
    var d := Sync(c, p, stale, order, refused, now).core;
    var added, builtins := FreshIds(p.members, e, false), FreshIds(p.members, e, true);
    SyncPasses(c, p, stale, order, refused, now);
    forall t | t !in BUILTINS
      ensures t in d.outbounds <==>
                (t in c.outbounds || t in FreshTags(p.members, e)) && !(LostTag(c, d, t) && !Referenced(d, t))
    {
      TagGoesOnce(c, s, d, p.tag, added, builtins, FreshTags(p.members, e), t);
    }
  }

  lemma SyncPasses(c: Core, p: GroupPlan, stale: seq<Id>, order: seq<Id>, refused: set<Id>, now: int)
    requires Starts(c, p, stale, order) && Sync(c, p, stale, order, refused, now).Done?
    ensures var s, e := StagesOf(c, p, stale, order, refused, now), Existing(c, p.tag);
            var d := Sync(c, p, stale, order, refused, now).core;
            && Passes(c, s, d, p.tag, FreshIds(p.members, e, false), FreshIds(p.members, e, true))
            && Builds(c, s, FreshTags(p.members, e))
  {
    FirstStages(c, p, stale, order, refused, now);
    MiddleStage(c, p, stale, order, refused, now);
    EndSweeps(c, p, stale, order, refused, now);
    BuiltinsNotYetThere(p.members, Existing(c, p.tag));
    FreshStay(c, p, stale, order, refused, now);
  }

  lemma EndSweeps(c: Core, p: GroupPlan, stale: seq<Id>, order: seq<Id>, refused: set<Id>, now: int)
    requires Starts(c, p, stale, order) && Sync(c, p, stale, order, refused, now).Done?
    requires p.tag in StagesOf(c, p, stale, order, refused, now).c3.groups
    ensures var d := Sync(c, p, stale, order, refused, now).core;
            var n := StagesOf(c, p, stale, order, refused, now).c3.groups[p.tag].g.nodes;
            && Swept(StagesOf(c, p, stale, order, refused, now).c3, d) && p.tag in d.groups
            && (forall x :: x in d.groups[p.tag].g.nodes <==> x in n && !RemoveReady(n[x], now))
            && (forall x :: x in d.groups[p.tag].g.nodes ==> d.groups[p.tag].g.nodes[x] == n[x])
  {
    MiddleStage(c, p, stale, order, refused, now);
    LastStages(StagesOf(c, p, stale, order, refused, now).c3, p.tag, p.selected, order, now);
  }

  /** What the two adding stages put up. */
  ghost predicate Builds(c: Core, s: Stages, built: set<Id>) {
    && (forall t :: t in s.c1.outbounds <==> t in c.outbounds || t in built)
    && (forall t :: t in s.c3.outbounds ==> t in s.c2.outbounds || t in BUILTINS)
    && s.c2.outbounds <= s.c3.outbounds
  }

  /** A tag taken down in the middle of a sync is one that the whole sync leaves unused. */
  lemma TagGoesOnce(c: Core, s: Stages, d: Core, gt: Id, added: set<Id>, builtins: set<Id>, built: set<Id>, t: Id)
    requires Passes(c, s, d, gt, added, builtins) && Builds(c, s, built) && t !in BUILTINS
    ensures t in d.outbounds <==> (t in c.outbounds || t in built) && !(LostTag(c, d, t) && !Referenced(d, t))
  {
    if LostTag(c, d, t) {
      LostSomewhere(c, s, d, gt, added, builtins, t);
    }
    if LostTag(s.c1, s.c2, t) {
      LostEarly(c, s, d, gt, added, builtins, t);
    }
    if LostTag(s.c3, d, t) {
      LostLate(c, s, d, gt, added, builtins, t);
    }
    BuiltinsReferenceNothingElse(s.c2, s.c3, gt, builtins, t);
    ShrunkReferences(s.c3, d, t);
  }

  lemma FreshStay(c: Core, p: GroupPlan, stale: seq<Id>, order: seq<Id>, refused: set<Id>, now: int)
    requires Starts(c, p, stale, order) && Sync(c, p, stale, order, refused, now).Done?
    ensures var d := Sync(c, p, stale, order, refused, now).core;
            p.tag in d.groups && FreshIds(p.members, Existing(c, p.tag), false) <= d.groups[p.tag].g.nodes.Keys
  {
    SyncConverges(c, p, stale, order, refused, now);
    var e := Existing(c, p.tag);
    FreshIdsContents(p.members, e, false);
    PlannedAreFreshOrThere(p, e);
  }

  /** A core whose only member was removed and has no connection left, but was not collected yet. */
  function LeftTombstone(): Core {
    var gone := NEW_NODE.(enabled := false, tombstoned := true);
    var policy := Policy(Manual, false, 30, 120, 3, 3, Strategy.RoundRobin);
    Core(map["m" := Live(Group(map["a" := gone], ["a"], "", policy, 0, 0), map["a" := Seat("node-a", ["node-a"])])],
         {"node-a"})
  }

  function OneMemberPlan(): GroupPlan {
    GroupPlan("m", [Member("a", "node-a", false, [])], "")
  }

  /** The plan asks for it; the sync succeeds, and the member is gone. */
  lemma PlannedTombstoneIsLost(now: int)
    ensures var c, p := LeftTombstone(), OneMemberPlan();
            var out := Sync(c, p, [], ["m"], {}, now);
            Starts(c, p, [], ["m"]) && out.Done? && "a" in PlannedIds(p) && "m" in out.core.groups
              && "a" !in out.core.groups["m"].g.nodes
  {
    var c, p := LeftTombstone(), OneMemberPlan();
    var m := p.members[0];
    assert p.members[1..] == [] && IdOf(m) in PlannedIds(p);
    assert Existing(c, "m") == {"a"};
    assert AddMembers(c, "m", [], {"a"}, {}) == Done(c);
    assert AddMembers(c, "m", p.members, {"a"}, {}) == Done(c);
    assert DropAll(c, "m", [], TagTable(c, "m"), now) == c;
    assert AddBuiltins(c, "m", [], {"a"}, {}) == Done(c);
    assert AddBuiltins(c, "m", p.members, {"a"}, {}) == Done(c);
    assert SelectPlanned(c, "m", "", now) == Done(c);
    SyncConverges(c, p, [], ["m"], {}, now);
  }

  // ---------------------------------------------------------------- no tombstones between events

  ghost predicate NoTombstones(g: Group) {
    forall x :: x in g.nodes ==> !g.nodes[x].tombstoned
  }

  /** One event after the other, a removed member is collected at once: no tombstone outlives an event. */
  lemma StepLeavesNoTombstone(g: Group, e: Event, now: int, shuffle: seq<Id> -> seq<Id>)
    requires NoTombstones(g)
    ensures NoTombstones(Step(g, e, now, shuffle))
  {
    match e
    case Dial(answers) =>
      var (h, ids) := Candidates(g, now, shuffle);
      CandidatesLeaveNoTombstone(g, now, shuffle);
      DialLeavesNoTombstone(h, ids, answers, now);
    case SelectFastest => CandidatesLeaveNoTombstone(g, now, shuffle);
    case ProbeStarts => ProbesLeaveNoTombstone(g, e, now, shuffle);
    case ProbeEnds(_, _, _) => ProbesLeaveNoTombstone(g, e, now, shuffle);
    case _ => CallsLeaveNoTombstone(g, e, now, shuffle);
  }

  lemma ProbesLeaveNoTombstone(g: Group, e: Event, now: int, shuffle: seq<Id> -> seq<Id>)
    requires NoTombstones(g) && (e.ProbeStarts? || e.ProbeEnds?)
    ensures NoTombstones(Step(g, e, now, shuffle))
  {
  }

  lemma CallsLeaveNoTombstone(g: Group, e: Event, now: int, shuffle: seq<Id> -> seq<Id>)
    requires NoTombstones(g) && !e.Dial? && !e.SelectFastest? && !e.ProbeStarts? && !e.ProbeEnds?
    ensures NoTombstones(Step(g, e, now, shuffle))
  {
  }

  lemma CandidatesLeaveNoTombstone(g: Group, now: int, shuffle: seq<Id> -> seq<Id>)
    requires NoTombstones(g)
    ensures NoTombstones(Candidates(g, now, shuffle).0)
  {
    var g1 := if EligibleIds(g.nodes, g.order, now) == [] then Revived(g, now) else g;
    OrderedKeepsMembers(g1, EligibleIds(g1.nodes, g1.order, now), shuffle);
  }

  lemma {:induction false} DialLeavesNoTombstone(g: Group, ids: seq<Id>, answers: map<Id, DialResult>, now: int)
    requires NoTombstones(g)
    ensures NoTombstones(DialFrom(g, ids, answers, now).0)
    decreases |ids|
  {
    if |ids| > 0 {
      if ids[0] !in g.nodes {
        DialLeavesNoTombstone(g, ids[1..], answers, now);
      } else {
        DialLeavesNoTombstone(FailMember(g, ids[0], g.policy.failureTtl, now), ids[1..], answers, now);
        var a := if ids[0] in answers then answers[ids[0]] else NoOutbound;
        if a.Connected? {
          DialLeavesNoTombstone(Reached(g, ids[0], a.latencyMs), ids[1..], answers, now);
        }
      }
    }
  }

  /** So from every sequential state a successful sync leaves exactly the plan. */
  lemma SequentialSyncIsExact(c: Core, p: GroupPlan, stale: seq<Id>, order: seq<Id>, refused: set<Id>, now: int)
    requires Starts(c, p, stale, order) && Sync(c, p, stale, order, refused, now).Done?
             && NoTombstones(c.groups[p.tag].g)
    ensures var d := Sync(c, p, stale, order, refused, now).core;
            p.tag in d.groups && forall x :: x !in BUILTINS ==> (x in d.groups[p.tag].g.nodes <==> x in PlannedIds(p))
  {
    SyncConverges(c, p, stale, order, refused, now);
  }
}
