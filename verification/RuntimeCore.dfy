/** The core object and the sync loop (core/singboxcore/core.go:232-398, service/proxy/runtime_plan.go:346),
    each method proved to do what Reconcile describes. */
module RuntimeCore {
  import opened Ids
  import opened NodeHealth
  import opened GroupEvents
  import opened Reconcile

  class Runtime {
    var groups: map<Id, Live>
    var outbounds: set<Id>

    constructor ()
      ensures View() == Core(map[], {})
    {
      groups, outbounds := map[], {};
    }

    function View(): Core
      reads this
    {
      Core(groups, outbounds)
    }

    method TagsInUse(l: Live) returns (tags: set<Id>)
      ensures forall t :: t in tags <==> exists x | x in l.g.nodes :: Uses(l, x, t)
    {
      tags := {};
      var rest := l.g.nodes.Keys;
      while rest != {}
        invariant rest <= l.g.nodes.Keys
        invariant forall t :: t in tags <==> exists x | x in l.g.nodes :: x !in rest && Uses(l, x, t)
        decreases |rest|
      {
        var x :| x in rest;
        if x in l.seats {
          tags := tags + set t | t in TagsOf(l.seats[x]) && t != "";
        }
        rest := rest - {x};
      }
    }

    /** referencedOutboundTags (core.go:380). */
    method TagsReferenced() returns (tags: set<Id>)
      ensures forall t :: t in tags <==> Referenced(View(), t)
    {
      tags := groups.Keys;
      var rest := groups.Keys;
      while rest != {}
        invariant rest <= groups.Keys
        invariant forall t :: t in tags <==>
                    t in groups || exists gt | gt in groups ::
                      gt !in rest && exists x | x in groups[gt].g.nodes :: Uses(groups[gt], x, t)
        decreases |rest|
      {
        var gt :| gt in rest;
        var used := TagsInUse(groups[gt]);
        tags := tags + used;
        rest := rest - {gt};
      }
    }

    /** removeOutboundTagsIfUnused (core.go:354): the references are read once, before the loop. */
    method RemoveTagsIfUnused(tags: seq<Id>)
      modifies this`outbounds
      ensures View() == Free(old(View()), set t | t in tags && t != "")
    {
      var unique := UniqueNonEmpty(tags);
      if |unique| == 0 {
        return;
      }
      var inUse := TagsReferenced();
      ghost var c := View();
      var i := |unique|;
      while i > 0
        invariant 0 <= i <= |unique| && groups == c.groups
        invariant outbounds == set t | t in c.outbounds && (t !in unique[i..] || t in BUILTINS || t in inUse)
      {
        i := i - 1;
        var tag := unique[i];
        assert unique[i..] == [tag] + unique[i + 1..];
        if tag in BUILTINS || tag in inUse || tag !in outbounds {
          continue;
        }
        outbounds := outbounds - {tag};
      }
      assert unique[0..] == unique;
    }

    /** GC of one group. */
    method CollectGroup(gt: Id, now: int)
      modifies this
      ensures View() == CollectIn(old(View()), gt, now)
    {
      if gt !in groups {
        return;
      }
      var l := groups[gt];
      var tags: seq<Id> := [];
      var ready: set<Id> := {};
      var rest := l.g.nodes.Keys;
      while rest != {}
        invariant rest <= l.g.nodes.Keys
        invariant ready == set x | x in l.g.nodes && x !in rest && RemoveReady(l.g.nodes[x], now)
        invariant (set t | t in tags && t != "") == TagSet(l, ready)
        decreases |rest|
      {
        var x :| x in rest;
        rest := rest - {x};
        if !RemoveReady(l.g.nodes[x], now) {
          continue;
        }
        if x in l.seats {
          assert TagSet(l, ready + {x}) == TagSet(l, ready) + set t | t in TagsOf(l.seats[x]) && t != "";
          tags := tags + TagsOf(l.seats[x]);
        } else {
          assert TagSet(l, ready + {x}) == TagSet(l, ready);
        }
        ready := ready + {x};
      }
      assert ready == Ready(l, now);
      groups := groups[gt := Live(CollectGarbage(l.g, now), l.seats - ready)];
      RemoveTagsIfUnused(tags);
    }

    /** CreateOutbound for one outbound after the other. */
    method CreateTags(tags: seq<Id>, refused: set<Id>) returns (ok: bool)
      modifies this`outbounds
      ensures Create(old(View()), tags, refused) == if ok then Done(View()) else Failed(View())
    {
      ghost var goal := Create(View(), tags, refused);
      for i := 0 to |tags|
        invariant goal == Create(View(), tags[i..], refused) && groups == old(groups)
      {
        assert tags[i..][0] == tags[i] && tags[i..][1..] == tags[i + 1..];
        if tags[i] == "" || (tags[i] !in outbounds && tags[i] in refused) {
          return false;
        }
        outbounds := outbounds + {tags[i]};
      }
      return true;
    }

    /** AddNodeOutbound (core.go:232). */
    method Seat(gt: Id, x: Id, s: Reconcile.Seat, refused: set<Id>) returns (ok: bool)
      modifies this
      ensures AddSeat(old(View()), gt, x, s, refused) == if ok then Done(View()) else Failed(View())
    {
      if gt !in groups || s.tag == "" {
        return false;
      }
      ok := CreateTags([s.tag], refused);
      if ok {
        groups := groups[gt := Seated(groups[gt], x, s)];
      }
    }

    method AddPlanned(gt: Id, members: seq<Member>, existing: set<Id>, refused: set<Id>) returns (ok: bool)
      modifies this
      ensures AddMembers(old(View()), gt, members, existing, refused) == if ok then Done(View()) else Failed(View())
    {
      ghost var goal := AddMembers(View(), gt, members, existing, refused);
      for i := 0 to |members|
        invariant goal == AddMembers(View(), gt, members[i..], existing, refused)
      {
        var m := members[i];
        assert members[i..][0] == m && members[i..][1..] == members[i + 1..];
        if m.builtin || IdOf(m) in existing {
          continue;
        }
        ok := CreateTags(DropTag(m.outbounds, m.tag), refused);
        if !ok {
          return false;
        }
        ok := Seat(gt, IdOf(m), Reconcile.Seat(m.tag, OutboundTags(m)), refused);
        if !ok {
          return false;
        }
      }
      return true;
    }

    method AddPlannedBuiltins(gt: Id, members: seq<Member>, existing: set<Id>, refused: set<Id>) returns (ok: bool)
      modifies this
      ensures AddBuiltins(old(View()), gt, members, existing, refused) == if ok then Done(View()) else Failed(View())
    {
      ghost var goal := AddBuiltins(View(), gt, members, existing, refused);
      for i := 0 to |members|
        invariant goal == AddBuiltins(View(), gt, members[i..], existing, refused)
      {
        var m := members[i];
        assert members[i..][0] == m && members[i..][1..] == members[i + 1..];
        if !m.builtin || m.id in existing || m.tag !in BUILTINS {
          continue;
        }
        ok := Seat(gt, IdOf(m), Reconcile.Seat(m.tag, []), refused);
        if !ok {
          return false;
        }
      }
      return true;
    }

    /** DisableNode for a built-in, RemoveNode for the rest. */
    method Drop(gt: Id, x: Id, tag: Id, now: int)
      modifies this
      ensures View() == DropStale(old(View()), gt, x, tag, now)
    {
      if gt !in groups || x !in groups[gt].g.nodes {
        return;
      }
      var l := groups[gt];
      var n := l.g.nodes[x];
      if tag in BUILTINS {
        groups := groups[gt := l.(g := EnsureSelected(With(l.g, x, n.(enabled := false, active := 0)), now))];
        return;
      }
      var gone := Tombstone(n, l.g.policy.removeTtl, now).(active := 0);
      groups := groups[gt := l.(g := EnsureSelected(With(l.g, x, gone), now))];
      CollectGroup(gt, now);
    }

    method DropEach(gt: Id, stale: seq<Id>, tags: map<Id, Id>, now: int)
      modifies this
      ensures View() == DropAll(old(View()), gt, stale, tags, now)
    {
      ghost var goal := DropAll(View(), gt, stale, tags, now);
      for i := 0 to |stale|
        invariant goal == DropAll(View(), gt, stale[i..], tags, now)
      {
        assert stale[i..][0] == stale[i] && stale[i..][1..] == stale[i + 1..];
        Drop(gt, stale[i], if stale[i] in tags then tags[stale[i]] else "", now);
      }
    }

    method CollectEach(order: seq<Id>, now: int)
      modifies this
      ensures View() == CollectAll(old(View()), order, now)
    {
      ghost var goal := CollectAll(View(), order, now);
      for i := 0 to |order|
        invariant goal == CollectAll(View(), order[i..], now)
      {
        assert order[i..][0] == order[i] && order[i..][1..] == order[i + 1..];
        CollectGroup(order[i], now);
      }
    }

    /** syncDynamicGroupMembers (runtime_plan.go:346); stale and order are the two map iterations. */
    method SyncMembers(p: GroupPlan, stale: seq<Id>, order: seq<Id>, refused: set<Id>, now: int) returns (ok: bool)
      modifies this
      ensures Sync(old(View()), p, stale, order, refused, now) == if ok then Done(View()) else Failed(View())
    {
      var existing := Existing(View(), p.tag);
      var tags := TagTable(View(), p.tag);
      ok := AddPlanned(p.tag, p.members, existing, refused);
      if !ok {
        return false;
      }
      DropEach(p.tag, stale, tags, now);
      ok := AddPlannedBuiltins(p.tag, p.members, existing, refused);
      if !ok {
        return false;
      }
      if p.selected != "" {
        if p.tag !in groups || p.selected !in groups[p.tag].g.nodes {
          return false;
        }
        var l := groups[p.tag];
        if Eligible(l.g.nodes[p.selected], now, l.g.policy.forceSelected) {
          groups := groups[p.tag := l.(g := l.g.(selected := p.selected))];
        }
      }
      CollectEach(order, now);
      return true;
    }
  }
}
