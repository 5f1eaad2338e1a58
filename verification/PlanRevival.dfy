/** Whom the plan builder wakes when all nodes of a list are blacklisted (service/proxy/runtime_plan.go:506-565): the
    health table says who is blacklisted, and the balancers' revival order who comes first. */
module PlanRevival {
  import opened Ids
  import opened NodeHealth
  import opened Balancing
  import Planner

  const WAKE_LIMIT := 3

  /** The listed nodes as the revival order sees them; a node without a health record is not blacklisted. */
  function Sleepers(health: map<Id, Node>, ids: seq<Id>): Group {
    var order := Unique(ids);
    Group(map x | x in SetOf(order) :: if x in health then health[x] else NEW_NODE, order, "",
          Policy(Manual, false, 0, 0, 0, WAKE_LIMIT, Manual), 0, 0)
  }

  /** blacklistRevivalNodeIDs (runtime_plan.go:506). */
  function Woken(health: map<Id, Node>, now: int, ids: seq<Id>): seq<Id> {
    IdsOf(Taken(Sleepers(health, ids), now))
  }

  function Reviver(health: map<Id, Node>, now: int): seq<Id> -> seq<Id> {
    (ids: seq<Id>) => Woken(health, now, ids)
  }

  lemma SleepersAreWellFormed(health: map<Id, Node>, ids: seq<Id>)
    ensures WellFormed(Sleepers(health, ids))
  {
    UniqueContents(ids);
  }

  /** At most three blacklisted nodes of the list are woken, all of them when there are no more, and each ranks before
      every one left asleep. */
  lemma WakesTheLeast(health: map<Id, Node>, now: int, ids: seq<Id>)
    ensures var all := Entries(Sleepers(health, ids), 0, now);
            var woken := Taken(Sleepers(health, ids), now);
            && |Woken(health, now, ids)| == (if |all| < WAKE_LIMIT then |all| else WAKE_LIMIT)
            && Distinct(Woken(health, now, ids))
            && (forall x :: x in Woken(health, now, ids) ==> x in ids && x in health && Revivable(health[x], now))
            && (forall e, f :: e in woken && f in all && f !in woken ==> Less(e.rank, f.rank))
  {
    var g := Sleepers(health, ids);
    SleepersAreWellFormed(health, ids);
    RevivalWakesTheLeast(g, now);
    EntriesContents(g, 0, now);
    UniqueContents(ids);
    IdsAt(Taken(g, now));
    forall x | x in Woken(health, now, ids)
      ensures x in ids && x in health && Revivable(health[x], now)
    {
      var i :| 0 <= i < |Taken(g, now)| && Woken(health, now, ids)[i] == x;
      assert Taken(g, now)[i] in Entries(g, 0, now);
    }
  }

  /** So it is a choice that the plan builder may be given. */
  lemma ReviverPicks(health: map<Id, Node>, now: int)
    ensures Planner.Picks(Reviver(health, now))
  {
    forall ids: seq<Id>
      ensures SetOf(Reviver(health, now)(ids)) <= SetOf(ids)
    {
      WakesTheLeast(health, now, ids);
    }
  }
}
