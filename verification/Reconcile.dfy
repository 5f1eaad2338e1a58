/** Bringing a running core to a plan (service/proxy/runtime_plan.go:346-416): members are added, stale ones
    removed, built-ins switched, and outbounds that nobody references any more are taken down
    (core/singboxcore/core.go:354-398). */
module Reconcile {
  import opened Ids
  import opened NodeHealth
  import opened Balancing
  import opened GroupEvents

  const BUILTINS: set<Id> := {"direct", "block"}

  /** What a member occupies: its own tag, and the tags of all outbounds it was built from. */
  datatype Seat = Seat(tag: Id, tags: seq<Id>)

  datatype Live = Live(g: Group, seats: map<Id, Seat>)

  datatype Core = Core(groups: map<Id, Live>, outbounds: set<Id>)

  datatype Member = Member(id: Id, tag: Id, builtin: bool, outbounds: seq<Id>)

  datatype GroupPlan = GroupPlan(tag: Id, members: seq<Member>, selected: Id)

  datatype Outcome = Done(core: Core) | Failed(core: Core)

  function IdOf(m: Member): Id {
    if m.id == "" then m.tag else m.id
  }

  /** dynamicMemberPlan.outboundTags (runtime_plan.go:48). */
  function OutboundTags(m: Member): seq<Id> {
    Unique(if m.tag in m.outbounds then m.outbounds else m.outbounds + [m.tag])
  }

  function TagsOf(s: Seat): seq<Id> {
    if s.tags == [] then [s.tag] else s.tags
  }

  predicate Uses(l: Live, x: Id, t: Id) {
    x in l.g.nodes && x in l.seats && t != "" && t in TagsOf(l.seats[x])
  }

  /** referencedOutboundTags (core.go:380). */
  predicate Referenced(c: Core, t: Id) {
    t in c.groups || exists gt | gt in c.groups :: exists x | x in c.groups[gt].g.nodes :: Uses(c.groups[gt], x, t)
  }

  /** removeOutboundTagsIfUnused (core.go:354). */
  function Free(c: Core, tags: set<Id>): Core {
    c.(outbounds := set t | t in c.outbounds && (t !in tags || t in BUILTINS || Referenced(c, t)))
  }

  function WithLive(c: Core, gt: Id, l: Live): Core {
    c.(groups := c.groups[gt := l])
  }

  function Ready(l: Live, now: int): set<Id> {
    set x | x in l.g.nodes && RemoveReady(l.g.nodes[x], now)
  }

  function TagSet(l: Live, xs: set<Id>): set<Id> {
    set x, t | x in xs && x in l.seats && t in TagsOf(l.seats[x]) && t != "" :: t
  }

  /** GC of one group (group.go:314): forget the ready members, then free what they held. */
  function CollectIn(c: Core, gt: Id, now: int): Core {
    if gt !in c.groups then c
    else
      var l := c.groups[gt];
      var ready := Ready(l, now);
      Free(WithLive(c, gt, Live(CollectGarbage(l.g, now), l.seats - ready)), TagSet(l, ready))
  }

  function CollectAll(c: Core, order: seq<Id>, now: int): Core
    decreases |order|
  {
    if order == [] then c else CollectAll(CollectIn(c, order[0], now), order[1..], now)
  }

  // ---------------------------------------------------------------- the phases of a sync

  /** CreateOutbound (core.go:263): existing tags are fine, others may be refused. */
  function Create(c: Core, tags: seq<Id>, refused: set<Id>): Outcome
    decreases |tags|
  {
    if tags == [] then Done(c)
    else if tags[0] == "" || (tags[0] !in c.outbounds && tags[0] in refused) then Failed(c)
    else Create(c.(outbounds := c.outbounds + {tags[0]}), tags[1..], refused)
  }

  function DropTag(tags: seq<Id>, tag: Id): seq<Id> {
    if tags == [] then [] else (if tags[0] == tag then [] else [tags[0]]) + DropTag(tags[1..], tag)
  }

  function Seated(l: Live, x: Id, s: Seat): Live {
    Live(Step(l.g, AddNode(x), 0, Unshuffled), l.seats[x := s])
  }

  /** AddNodeOutbound (core.go:232). */
  function AddSeat(c: Core, gt: Id, x: Id, s: Seat, refused: set<Id>): Outcome {
    if gt !in c.groups || s.tag == "" then Failed(c)
    else
      match Create(c, [s.tag], refused)
      case Failed(d) => Failed(d)
      case Done(d) => Done(WithLive(d, gt, Seated(c.groups[gt], x, s)))
  }

  function AddMember(c: Core, gt: Id, m: Member, refused: set<Id>): Outcome {
    match Create(c, DropTag(m.outbounds, m.tag), refused)
    case Failed(d) => Failed(d)
    case Done(d) => AddSeat(d, gt, IdOf(m), Seat(m.tag, OutboundTags(m)), refused)
  }

  /** Planned members that are not there yet, built-ins apart. */
  function AddMembers(c: Core, gt: Id, members: seq<Member>, existing: set<Id>, refused: set<Id>): Outcome
    decreases |members|
  {
    if members == [] then Done(c)
    else if members[0].builtin || IdOf(members[0]) in existing then AddMembers(c, gt, members[1..], existing, refused)
    else
      match AddMember(c, gt, members[0], refused)
      case Failed(d) => Failed(d)
      case Done(d) => AddMembers(d, gt, members[1..], existing, refused)
  }

  /** One stale member: a built-in is only disabled, any other is removed at once. */
  function DropStale(c: Core, gt: Id, x: Id, tag: Id, now: int): Core {
    if gt !in c.groups || x !in c.groups[gt].g.nodes then c
    else
      var l := c.groups[gt];
      var n := l.g.nodes[x];
      if tag in BUILTINS then
        WithLive(c, gt, l.(g := EnsureSelected(With(l.g, x, n.(enabled := false, active := 0)), now)))
      else
        var gone := Tombstone(n, l.g.policy.removeTtl, now).(active := 0);
        CollectIn(WithLive(c, gt, l.(g := EnsureSelected(With(l.g, x, gone), now))), gt, now)
  }

  /** Stale members in the order the caller's map iteration happens to take. */
  function DropAll(c: Core, gt: Id, stale: seq<Id>, tags: map<Id, Id>, now: int): Core
    decreases |stale|
  {
    if stale == [] then c
    else
      var tag := if stale[0] in tags then tags[stale[0]] else "";
      DropAll(DropStale(c, gt, stale[0], tag, now), gt, stale[1..], tags, now)
  }

  /** addBuiltinMember (runtime_plan.go:418) for the built-ins that were not there. */
  function AddBuiltins(c: Core, gt: Id, members: seq<Member>, existing: set<Id>, refused: set<Id>): Outcome
    decreases |members|
  {
    if members == [] then Done(c)
    else if !members[0].builtin || members[0].id in existing || members[0].tag !in BUILTINS then
      AddBuiltins(c, gt, members[1..], existing, refused)
    else
      match AddSeat(c, gt, IdOf(members[0]), Seat(members[0].tag, []), refused)
      case Failed(d) => Failed(d)
      case Done(d) => AddBuiltins(d, gt, members[1..], existing, refused)
  }

  /** A planned selection must name a member; one that may not serve is ignored. */
  function SelectPlanned(c: Core, gt: Id, x: Id, now: int): Outcome {
    if x == "" then Done(c)
    else if gt !in c.groups || x !in c.groups[gt].g.nodes then Failed(c)
    else
      var l := c.groups[gt];
      Done(if Eligible(l.g.nodes[x], now, l.g.policy.forceSelected) then WithLive(c, gt, l.(g := l.g.(selected := x)))
           else c)
  }

  function Existing(c: Core, gt: Id): set<Id> {
    if gt in c.groups then c.groups[gt].g.nodes.Keys else {}
  }

  function TagTable(c: Core, gt: Id): map<Id, Id> {
    if gt in c.groups then map x | x in c.groups[gt].seats :: c.groups[gt].seats[x].tag else map[]
  }

  function PlannedIds(p: GroupPlan): set<Id> {
    set i | 0 <= i < |p.members| :: IdOf(p.members[i])
  }

  /** syncDynamicGroupMembers (runtime_plan.go:346). */
  function Sync(c: Core, p: GroupPlan, stale: seq<Id>, order: seq<Id>, refused: set<Id>, now: int): Outcome {
    match AddMembers(c, p.tag, p.members, Existing(c, p.tag), refused)
    case Failed(d) => Failed(d)
    case Done(c1) =>
      match AddBuiltins(DropAll(c1, p.tag, stale, TagTable(c, p.tag), now), p.tag, p.members, Existing(c, p.tag),
                        refused)
      case Failed(d) => Failed(d)
      case Done(c3) =>
        match SelectPlanned(c3, p.tag, p.selected, now)
        case Failed(d) => Failed(d)
        case Done(c4) => Done(CollectAll(c4, order, now))
  }

  // ---------------------------------------------------------------- taking down outbounds

  ghost predicate InOrder(l: Live) {
    && WellFormed(l.g) && l.seats.Keys == l.g.nodes.Keys
    && forall x :: x in l.seats ==> (x in BUILTINS <==> l.seats[x].tag in BUILTINS)
  }

  ghost predicate Sound(c: Core) {
    forall gt :: gt in c.groups ==> InOrder(c.groups[gt])
  }

  /** A tag held by a member that is gone. */
  ghost predicate LostTag(a: Core, b: Core, t: Id) {
    exists gt, x :: gt in a.groups && Uses(a.groups[gt], x, t) && !(gt in b.groups && x in b.groups[gt].g.nodes)
  }

  /** b has at most a's members, in their old seats. */
  ghost predicate Shrunk(a: Core, b: Core) {
    && b.groups.Keys == a.groups.Keys
    && forall gt :: gt in a.groups ==>
         && b.groups[gt].g.nodes.Keys <= a.groups[gt].g.nodes.Keys
         && b.groups[gt].seats.Keys <= a.groups[gt].seats.Keys
         && forall x :: x in b.groups[gt].seats ==> b.groups[gt].seats[x] == a.groups[gt].seats[x]
  }

  /** b's outbounds are a's, less those held by a lost member, referenced by nobody left and not built in. */
  ghost predicate Swept(a: Core, b: Core) {
    && Shrunk(a, b) && Sound(b)
    && forall t :: t in b.outbounds <==> t in a.outbounds && !(t !in BUILTINS && LostTag(a, b, t) && !Referenced(b, t))
  }

  lemma SweptItself(a: Core)
    requires Sound(a)
    ensures Swept(a, a)
  {
  }

  lemma ShrunkReferences(a: Core, b: Core, t: Id)
    requires Sound(a) && Sound(b) && Shrunk(a, b)
    ensures Referenced(a, t) <==> Referenced(b, t) || LostTag(a, b, t)
  {
    if Referenced(b, t) && t !in b.groups {
      var gt :| gt in b.groups && exists x | x in b.groups[gt].g.nodes :: Uses(b.groups[gt], x, t);
      var x :| x in b.groups[gt].g.nodes && Uses(b.groups[gt], x, t);
      assert Uses(a.groups[gt], x, t);
    }
    if Referenced(a, t) && t !in a.groups && !LostTag(a, b, t) {
      var gt :| gt in a.groups && exists x | x in a.groups[gt].g.nodes :: Uses(a.groups[gt], x, t);
      var x :| x in a.groups[gt].g.nodes && Uses(a.groups[gt], x, t);
      assert x in b.groups[gt].g.nodes;
      assert Uses(b.groups[gt], x, t);
    }
  }

  lemma LostTwice(a: Core, b: Core, c: Core, t: Id)
    requires Sound(a) && Sound(b) && Sound(c) && Shrunk(a, b) && Shrunk(b, c)
    ensures LostTag(a, c, t) <==> LostTag(a, b, t) || LostTag(b, c, t)
  {
    if LostTag(b, c, t) {
      var gt, x :| gt in b.groups && Uses(b.groups[gt], x, t) && !(gt in c.groups && x in c.groups[gt].g.nodes);
      assert Uses(a.groups[gt], x, t);
    }
    if LostTag(a, c, t) && !LostTag(a, b, t) {
      var gt, x :| gt in a.groups && Uses(a.groups[gt], x, t) && !(gt in c.groups && x in c.groups[gt].g.nodes);
      assert x in b.groups[gt].g.nodes;
      assert Uses(b.groups[gt], x, t);
    }
  }

  /** Sweeping in two goes is sweeping once: a tag that two lost members shared goes with the second. */
  lemma SweptTwice(a: Core, b: Core, c: Core)
    requires Sound(a) && Swept(a, b) && Swept(b, c)
    ensures Swept(a, c)
  {
    forall t
      ensures t in c.outbounds <==> t in a.outbounds && !(t !in BUILTINS && LostTag(a, c, t) && !Referenced(c, t))
    {
      LostTwice(a, b, c, t);
      ShrunkReferences(b, c, t);
    }
  }

  /** Replacing one group by a smaller version of itself, and freeing what was lost. */
  lemma FreeSweeps(a: Core, gt: Id, l: Live, lost: set<Id>)
    requires Sound(a) && gt in a.groups && InOrder(l)
    requires l.g.nodes.Keys == a.groups[gt].g.nodes.Keys - lost
    requires forall x :: x in l.seats ==> x in a.groups[gt].seats && l.seats[x] == a.groups[gt].seats[x]
    ensures Swept(a, Free(WithLive(a, gt, l), TagSet(a.groups[gt], lost)))
  {
    var b := WithLive(a, gt, l);
    var c := Free(b, TagSet(a.groups[gt], lost));
    forall t | t in a.outbounds
      ensures t in c.outbounds <==> !(t !in BUILTINS && LostTag(a, c, t) && !Referenced(c, t))
    {
      assert Referenced(b, t) <==> Referenced(c, t);
      if t in TagSet(a.groups[gt], lost) && !Referenced(b, t) {
        var x :| x in lost && x in a.groups[gt].seats && t in TagsOf(a.groups[gt].seats[x]);
        assert x in a.groups[gt].g.nodes;
        assert Uses(a.groups[gt], x, t);
        assert LostTag(a, c, t);
      }
      if LostTag(a, c, t) {
        var h, x :| h in a.groups && Uses(a.groups[h], x, t) && !(h in c.groups && x in c.groups[h].g.nodes);
        assert h == gt && x in lost;
      }
    }
  }

  lemma CollectSweeps(c: Core, gt: Id, now: int)
    requires Sound(c)
    ensures Swept(c, CollectIn(c, gt, now))
    ensures forall h :: h in c.groups && h != gt ==> CollectIn(c, gt, now).groups[h] == c.groups[h]
  {
    if gt in c.groups {
      var l := c.groups[gt];
      var ready := Ready(l, now);
      KeepUnreadyContents(l.g, l.g.order, now);
      FreeSweeps(c, gt, Live(CollectGarbage(l.g, now), l.seats - ready), ready);
    } else {
      SweptItself(c);
    }
  }

  /** After a collection exactly the members that were not ready are there, unchanged. */
  lemma CollectKeeps(c: Core, gt: Id, now: int)
    requires Sound(c) && gt in c.groups
    ensures var d := CollectIn(c, gt, now);
            && gt in d.groups
            && (forall x :: x in d.groups[gt].g.nodes <==>
                  x in c.groups[gt].g.nodes && !RemoveReady(c.groups[gt].g.nodes[x], now))
            && (forall x :: x in d.groups[gt].g.nodes ==> d.groups[gt].g.nodes[x] == c.groups[gt].g.nodes[x])
  {
  }

  lemma {:induction false} CollectAllSweeps(c: Core, order: seq<Id>, gt: Id, now: int)
    requires Sound(c) && gt in c.groups && gt in order
    ensures var d := CollectAll(c, order, now);
            && Swept(c, d)
            && (forall x :: x in d.groups[gt].g.nodes <==>
                  x in c.groups[gt].g.nodes && !RemoveReady(c.groups[gt].g.nodes[x], now))
            && (forall x :: x in d.groups[gt].g.nodes ==> d.groups[gt].g.nodes[x] == c.groups[gt].g.nodes[x])
    decreases |order|
  {
    var d := CollectIn(c, order[0], now);
    CollectSweeps(c, order[0], now);
    if order[0] == gt {
      CollectKeeps(c, gt, now);
      CollectRestSweeps(d, order[1..], gt, now);
      SweptTwice(c, d, CollectAll(d, order[1..], now));
    } else {
      CollectAllSweeps(d, order[1..], gt, now);
      SweptTwice(c, d, CollectAll(d, order[1..], now));
    }
  }

  /** Collecting again what has been collected finds nothing more. */
  lemma {:induction false} CollectRestSweeps(c: Core, order: seq<Id>, gt: Id, now: int)
    requires Sound(c) && gt in c.groups
    requires forall x :: x in c.groups[gt].g.nodes ==> !RemoveReady(c.groups[gt].g.nodes[x], now)
    ensures Swept(c, CollectAll(c, order, now))
    ensures CollectAll(c, order, now).groups[gt].g.nodes == c.groups[gt].g.nodes
    decreases |order|
  {
    if order == [] {
      SweptItself(c);
    } else {
      var d := CollectIn(c, order[0], now);
      CollectSweeps(c, order[0], now);
      NothingMoreReady(c, order[0], gt, now);
      CollectRestSweeps(d, order[1..], gt, now);
      SweptTwice(c, d, CollectAll(d, order[1..], now));
    }
  }

  lemma NothingMoreReady(c: Core, other: Id, gt: Id, now: int)
    requires Sound(c) && gt in c.groups
    requires forall x :: x in c.groups[gt].g.nodes ==> !RemoveReady(c.groups[gt].g.nodes[x], now)
    ensures var d := CollectIn(c, other, now);
            gt in d.groups && d.groups[gt].g.nodes == c.groups[gt].g.nodes
  {
    if other == gt {
      CollectKeeps(c, gt, now);
    } else {
      CollectSweeps(c, other, now);
    }
  }
}
