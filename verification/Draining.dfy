/** Connection draining (core/singboxcore/node.go:117-164, core/singboxcore/group.go:222-242, 1107-1165).
    Dialling, closing, failing and draining run on different goroutines; every step below is one section
    that runs under the member's lock, or one atomic operation, and a run is any interleaving of them. */
module Draining {

  type Conn = nat
  type Drain = nat

  /** A connection's progress through its sync.Once: the body unregisters, then decrements. */
  datatype Phase = Open | Entered | Unregistered | Released

  /** A goroutine in DisableNode, RemoveNode or a failure path: its flags are set, then it takes a snapshot
      of the registered connections, then closes them one after the other. */
  datatype Progress = Flagged | Closing(todo: set<Conn>)

  datatype Pool = Pool(
    enabled: bool, tombstoned: bool, active: int,
    registered: set<Conn>, phase: map<Conn, Phase>, drains: map<Drain, Progress>)

  const EMPTY := Pool(true, false, 0, {}, map[], map[])

  datatype Event =
    | Register(c: Conn, healthy: bool)
    | Enter(c: Conn)
    | Unregister(c: Conn)
    | Decrement(c: Conn)
    | Enable
    | StartDisable(d: Drain)
    | StartRemove(d: Drain)
    | StartFailed(d: Drain)
    | Snapshot(d: Drain)
    | Closed(d: Drain, c: Conn)

  predicate Serving(p: Pool) {
    p.enabled && !p.tombstoned
  }

  predicate At(p: Pool, c: Conn, ph: Phase) {
    c in p.phase && p.phase[c] == ph
  }

  /** When a step can happen. Enter is the first goroutine through the Once, so it needs an open connection;
      a drain moves past a connection when Once.Do returns, which is when the body has finished. */
  predicate Can(p: Pool, e: Event) {
    match e
    case Register(c, healthy) => c !in p.phase
    case Enter(c) => At(p, c, Open)
    case Unregister(c) => At(p, c, Entered)
    case Decrement(c) => At(p, c, Unregistered)
    case Enable => true
    case StartDisable(d) => d !in p.drains
    case StartRemove(d) => d !in p.drains
    case StartFailed(d) => d !in p.drains
    case Snapshot(d) => d in p.drains && p.drains[d].Flagged?
    case Closed(d, c) => d in p.drains && p.drains[d].Closing? && c in p.drains[d].todo && At(p, c, Released)
  }

  function Step(p: Pool, e: Event): Pool {
    match e
    case Register(c, healthy) =>
      if Serving(p) && healthy then
        p.(registered := p.registered + {c}, phase := p.phase[c := Open], active := p.active + 1)
      else p
    case Enter(c) => p.(phase := p.phase[c := Entered])
    case Unregister(c) => p.(phase := p.phase[c := Unregistered], registered := p.registered - {c})
    case Decrement(c) => p.(phase := p.phase[c := Released], active := p.active - 1)
    case Enable => p.(enabled := true)
    case StartDisable(d) => p.(enabled := false, drains := p.drains[d := Flagged])
    case StartRemove(d) => p.(enabled := false, tombstoned := true, drains := p.drains[d := Flagged])
    case StartFailed(d) => p.(drains := p.drains[d := Flagged])
    case Snapshot(d) => p.(drains := p.drains[d := Closing(p.registered)])
    case Closed(d, c) =>
      if d in p.drains && p.drains[d].Closing? then p.(drains := p.drains[d := Closing(p.drains[d].todo - {c})]) else p
  }

  predicate Possible(p: Pool, es: seq<Event>)
    decreases |es|
  {
    es == [] || (Can(p, es[0]) && Possible(Step(p, es[0]), es[1..]))
  }

  function Run(p: Pool, es: seq<Event>): Pool
    decreases |es|
  {
    if es == [] then p else Run(Step(p, es[0]), es[1..])
  }

  // ---------------------------------------------------------------- counting

  function MidRelease(p: Pool): set<Conn> {
    set c | c in p.phase && p.phase[c] == Unregistered
  }

  /** The counter is the registered connections plus those between the two halves of their release. */
  ghost predicate Counted(p: Pool) {
    && RegisteredAreOpen(p)
    && p.active == |p.registered| + |MidRelease(p)|
  }

  ghost predicate RegisteredAreOpen(p: Pool) {
    forall c :: c in p.registered <==> At(p, c, Open) || At(p, c, Entered)
  }

  lemma StepKeepsRegistered(p: Pool, e: Event)
    requires RegisteredAreOpen(p) && Can(p, e)
    ensures RegisteredAreOpen(Step(p, e))
  {
  }

  lemma StepMovesMidRelease(p: Pool, e: Event)
    requires Can(p, e)
    ensures MidRelease(Step(p, e)) ==
            if e.Unregister? then MidRelease(p) + {e.c}
            else if e.Decrement? then MidRelease(p) - {e.c}
            else MidRelease(p)
  {
  }

  lemma StepKeepsCount(p: Pool, e: Event)
    requires Counted(p) && Can(p, e)
    ensures Counted(Step(p, e))
  {
    assert RegisteredAreOpen(p);
    StepKeepsRegistered(p, e);
    StepMovesMidRelease(p, e);
    if e.Register? {
      assert e.c !in p.registered;
    } else if e.Unregister? {
      assert e.c in p.registered && e.c !in MidRelease(p);
    }
    assert RegisteredAreOpen(Step(p, e));
  }

  lemma {:induction false} CounterIsExact(p: Pool, es: seq<Event>)
    requires Counted(p) && Possible(p, es)
    ensures Counted(Run(p, es)) && Run(p, es).active >= 0
    decreases |es|
  {
    if es != [] {
      StepKeepsCount(p, es[0]);
      CounterIsExact(Step(p, es[0]), es[1..]);
    }
  }

  function Decrements(es: seq<Event>, c: Conn): nat {
    if es == [] then 0 else (if es[0] == Decrement(c) then 1 else 0) + Decrements(es[1..], c)
  }

  /** In every interleaving a connection gives its count back at most once, and has done so exactly when
      its release has finished, whichever goroutines raced to close it. */
  lemma {:induction false} ReleasedOnce(p: Pool, es: seq<Event>, c: Conn)
    requires Possible(p, es)
    ensures Decrements(es, c) == (if At(Run(p, es), c, Released) && !At(p, c, Released) then 1 else 0)
    ensures At(p, c, Released) ==> At(Run(p, es), c, Released)
    decreases |es|
  {
    if es != [] {
      ReleasedOnce(Step(p, es[0]), es[1..], c);
    }
  }

  // ---------------------------------------------------------------- draining

  predicate Shut(p: Pool) {
    !p.enabled || p.tombstoned
  }

  /** How far a drain that shut the member has come. */
  ghost predicate Draining(p: Pool, d: Drain) {
    && Counted(p) && Shut(p) && d in p.drains
    && (p.drains[d].Closing? ==>
          && p.registered <= p.drains[d].todo
          && forall c :: c in p.drains[d].todo ==> c in p.phase)
  }

  predicate Reopens(p: Pool, e: Event) {
    e.Enable? && !p.tombstoned
  }

  /** No step of the run enables a member that is not tombstoned. */
  predicate NeverReopened(p: Pool, es: seq<Event>)
    decreases |es|
  {
    es == [] || (!Reopens(p, es[0]) && NeverReopened(Step(p, es[0]), es[1..]))
  }

  lemma {:induction false} StepKeepsDraining(p: Pool, e: Event, d: Drain)
    requires Draining(p, d) && Can(p, e) && !Reopens(p, e)
    ensures Draining(Step(p, e), d)
  {
    StepKeepsCount(p, e);
  }

  lemma {:induction false} RunKeepsDraining(p: Pool, es: seq<Event>, d: Drain)
    requires Draining(p, d) && Possible(p, es) && NeverReopened(p, es)
    ensures Draining(Run(p, es), d)
    decreases |es|
  {
    if es != [] {
      StepKeepsDraining(p, es[0], d);
      RunKeepsDraining(Step(p, es[0]), es[1..], d);
    }
  }

  predicate Finished(p: Pool, d: Drain) {
    d in p.drains && p.drains[d] == Closing({})
  }

  /** Once DisableNode or RemoveNode has closed its snapshot, no connection is registered, whatever was
      dialled, closed or failed meanwhile, until the member is enabled again; and a tombstoned member is
      never enabled again. What the counter still shows are releases under way on other goroutines. */
  lemma DrainedUntilReopened(p: Pool, shut: Event, es: seq<Event>)
    requires Counted(p) && Can(p, shut) && (shut.StartDisable? || shut.StartRemove?)
    requires Possible(Step(p, shut), es) && NeverReopened(Step(p, shut), es)
    ensures var q := Run(Step(p, shut), es);
            Finished(q, shut.d) ==> q.registered == {} && q.active == |MidRelease(q)|
  {
    StepKeepsCount(p, shut);
    RunKeepsDraining(Step(p, shut), es, shut.d);
  }

  lemma {:induction false} TombstoneLasts(p: Pool, es: seq<Event>)
    requires p.tombstoned
    ensures Run(p, es).tombstoned && NeverReopened(p, es)
    decreases |es|
  {
    if es != [] {
      TombstoneLasts(Step(p, es[0]), es[1..]);
    }
  }

  /** removeReady (node.go:464): a removed member is collected when it has no connection, or when its time is up. */
  ghost predicate Collectable(p: Pool, removeAfter: int, now: int) {
    p.tombstoned && (p.active <= 0 || (removeAfter != 0 && removeAfter <= now))
  }

  /** For a removed member the enabling clause is void: no later event re-registers anything. It is collectable
      exactly when no release is under way or its time is up. */
  lemma RemovedStaysDrained(p: Pool, d: Drain, es: seq<Event>)
    requires Counted(p) && Can(p, StartRemove(d)) && Possible(Step(p, StartRemove(d)), es)
    ensures var q := Run(Step(p, StartRemove(d)), es);
            Finished(q, d) ==>
              && q.registered == {}
              && forall removeAfter, now ::
                   Collectable(q, removeAfter, now) <==>
                     MidRelease(q) == {} || (removeAfter != 0 && removeAfter <= now)
  {
    TombstoneLasts(Step(p, StartRemove(d)), es);
    DrainedUntilReopened(p, StartRemove(d), es);
    assert forall s: set<Conn> :: |s| == 0 <==> s == {};
  }

  lemma {:induction false} RunSplits(p: Pool, a: seq<Event>, b: seq<Event>)
    requires Possible(p, a) && Possible(Run(p, a), b)
    ensures Possible(p, a + b) && Run(p, a + b) == Run(Run(p, a), b)
    decreases |a|
  {
    if a == [] {
      assert a + b == b;
    } else {
      RunSplits(Step(p, a[0]), a[1..], b);
      assert (a + b)[1..] == a[1..] + b;
    }
  }

  /** The rest of a connection's release, then the drain's step past it. */
  function CloseOne(ph: Phase, d: Drain, c: Conn): seq<Event>
    decreases match ph case Open => 3 case Entered => 2 case Unregistered => 1 case Released => 0
  {
    match ph
    case Open => [Enter(c)] + CloseOne(Entered, d, c)
    case Entered => [Unregister(c)] + CloseOne(Unregistered, d, c)
    case Unregistered => [Decrement(c)] + CloseOne(Released, d, c)
    case Released => [Closed(d, c)]
  }

  lemma {:induction false} CloseOneWorks(p: Pool, d: Drain, c: Conn)
    requires d in p.drains && p.drains[d].Closing? && c in p.drains[d].todo && c in p.phase
    ensures Possible(p, CloseOne(p.phase[c], d, c))
    ensures var q := Run(p, CloseOne(p.phase[c], d, c));
            q.phase.Keys == p.phase.Keys && q.drains == p.drains[d := Closing(p.drains[d].todo - {c})]
    decreases match p.phase[c] case Open => 3 case Entered => 2 case Unregistered => 1 case Released => 0
  {
    var es := CloseOne(p.phase[c], d, c);
    var q := Step(p, es[0]);
    if p.phase[c].Released? {
      assert Run(q, es[1..]) == q;
    } else {
      CloseOneWorks(q, d, c);
      assert es[1..] == CloseOne(q.phase[c], d, c);
    }
  }

  /** No interleaving wedges a drain: from every reachable point some continuation finishes it. */
  lemma {:induction false} DrainCanFinish(p: Pool, d: Drain) returns (es: seq<Event>)
    requires d in p.drains && RegisteredAreOpen(p)
    requires p.drains[d].Closing? ==> forall c :: c in p.drains[d].todo ==> c in p.phase
    ensures Possible(p, es) && Finished(Run(p, es), d)
    decreases p.drains[d].Flagged?, if p.drains[d].Closing? then |p.drains[d].todo| else 0
  {
    if p.drains[d].Flagged? {
      var q := Step(p, Snapshot(d));
      var rest := DrainCanFinish(q, d);
      es := [Snapshot(d)] + rest;
    } else if p.drains[d].todo == {} {
      es := [];
    } else {
      var c :| c in p.drains[d].todo;
      var first := CloseOne(p.phase[c], d, c);
      CloseOneWorks(p, d, c);
      RunKeepsRegistered(p, first);
      var rest := DrainCanFinish(Run(p, first), d);
      RunSplits(p, first, rest);
      es := first + rest;
    }
  }

  lemma {:induction false} RunKeepsRegistered(p: Pool, es: seq<Event>)
    requires RegisteredAreOpen(p) && Possible(p, es)
    ensures RegisteredAreOpen(Run(p, es))
    decreases |es|
  {
    if es != [] {
      StepKeepsRegistered(p, es[0]);
      RunKeepsRegistered(Step(p, es[0]), es[1..]);
    }
  }

  /** The drain has its snapshot, and every connection of old that is still registered is on its list. */
  ghost predicate KeepsList(p: Pool, d: Drain, known: set<Conn>) {
    && RegisteredAreOpen(p) && d in p.drains && p.drains[d].Closing? && known <= p.phase.Keys
    && forall c :: c in p.registered && c in known ==> c in p.drains[d].todo
  }

  lemma {:induction false} RunKeepsList(p: Pool, es: seq<Event>, d: Drain, known: set<Conn>)
    requires KeepsList(p, d, known) && Possible(p, es)
    ensures KeepsList(Run(p, es), d, known)
    decreases |es|
  {
    if es != [] {
      StepKeepsRegistered(p, es[0]);
      RunKeepsList(Step(p, es[0]), es[1..], d, known);
    }
  }

  /** Any drain, whatever started it and whatever runs beside it: when it has finished, the connections still
      registered are all newer than its snapshot. So none is registered if and only if no connection dialled
      since then is open or on its way out; a drain that only failed its member closes no more than that. */
  lemma FinishedDrainLeavesOnlyNewer(p: Pool, d: Drain, es: seq<Event>)
    requires RegisteredAreOpen(p) && Can(p, Snapshot(d)) && Possible(Step(p, Snapshot(d)), es)
    ensures var q := Run(Step(p, Snapshot(d)), es);
            Finished(q, d) ==>
              && (forall c :: c in q.registered <==> c !in p.phase && (At(q, c, Open) || At(q, c, Entered)))
              && (q.registered == {} <==> forall c :: c !in p.phase ==> !At(q, c, Open) && !At(q, c, Entered))
  {
    var s := Step(p, Snapshot(d));
    RunKeepsList(s, es, d, p.phase.Keys);
    var q := Run(s, es);
    if Finished(q, d) {
      assert forall c :: c in q.registered <==> At(q, c, Open) || At(q, c, Entered);
    }
  }

  /** A run in which such a connection is left. */
  lemma FailureDrainMissesNewConnections()
    ensures var es := [StartFailed(0), Snapshot(0), Register(7, true)];
            Possible(EMPTY, es) && Finished(Run(EMPTY, es), 0) && Run(EMPTY, es).registered == {7}
  {
    var p1 := Step(EMPTY, StartFailed(0));
    var p2 := Step(p1, Snapshot(0));
    var p3 := Step(p2, Register(7, true));
    var es := [StartFailed(0), Snapshot(0), Register(7, true)];
    assert es[1..] == [Snapshot(0), Register(7, true)];
    assert es[1..][1..] == [Register(7, true)];
    assert es[1..][1..][1..] == [];
    assert Run(p2, [Register(7, true)]) == p3;
    assert Run(p1, es[1..]) == p3;
    assert Possible(p2, [Register(7, true)]);
    assert Possible(p1, es[1..]);
  }

  // ---------------------------------------------------------------- the member's own methods

  /** The locked sections of NodeState, and a whole drain when no other goroutine runs. */
  class Connections {
    var enabled: bool
    var tombstoned: bool
    var active: int
    var registered: set<Conn>
    ghost var phase: map<Conn, Phase>

    constructor ()
      ensures View() == EMPTY
    {
      enabled, tombstoned, active, registered := true, false, 0, {};
      phase := map[];
    }

    ghost function View(): Pool
      reads this
    {
      Pool(enabled, tombstoned, active, registered, phase, map[])
    }

    /** registerConnection (node.go:117). */
    method Register(c: Conn, healthy: bool) returns (ok: bool)
      requires Counted(View()) && c !in phase
      modifies this
      ensures View() == Step(old(View()), Event.Register(c, healthy))
      ensures Counted(View()) && (ok <==> c in registered)
    {
      StepKeepsCount(View(), Event.Register(c, healthy));
      if !enabled || tombstoned || !healthy {
        return false;
      }
      registered := registered + {c};
      active := active + 1;
      phase := phase[c := Open];
      return true;
    }

    /** releaseActive (group.go:1135): the body of the Once. */
    method Release(c: Conn)
      requires Counted(View()) && At(View(), c, Open)
      modifies this
      ensures View() == Run(old(View()), [Enter(c), Unregister(c), Decrement(c)])
      ensures registered == old(registered) - {c} && phase == old(phase)[c := Released]
      ensures enabled == old(enabled) && tombstoned == old(tombstoned)
      ensures Counted(View())
    {
      ghost var p := View();
      ThreeSteps(p, Enter(c), Unregister(c), Decrement(c));
      StepKeepsCount(p, Enter(c));
      StepKeepsCount(Step(p, Enter(c)), Unregister(c));
      StepKeepsCount(Step(Step(p, Enter(c)), Unregister(c)), Decrement(c));
      registered := registered - {c};
      active := active - 1;
      phase := phase[c := Entered][c := Unregistered][c := Released];
    }

    /** closeActiveConnections (node.go:149) with no other goroutine under way. */
    method CloseAll() returns (closed: nat)
      requires Counted(View()) && forall x :: x in registered ==> At(View(), x, Open)
      modifies this
      ensures registered == {} && closed == |old(registered)|
      ensures enabled == old(enabled) && tombstoned == old(tombstoned)
      ensures MidRelease(View()) == old(MidRelease(View())) && active == |MidRelease(View())|
      ensures Counted(View())
    {
      var todo := registered;
      closed := |todo|;
      while todo != {}
        invariant todo == registered && Counted(View())
        invariant enabled == old(enabled) && tombstoned == old(tombstoned)
        invariant forall x :: x in registered ==> At(View(), x, Open)
        invariant MidRelease(View()) == old(MidRelease(View()))
        decreases |todo|
      {
        var c :| c in todo;
        todo := todo - {c};
        Release(c);
      }
    }
  }

  lemma ThreeSteps(p: Pool, a: Event, b: Event, c: Event)
    ensures Run(p, [a, b, c]) == Step(Step(Step(p, a), b), c)
  {
    assert [a, b, c][1..] == [b, c] && [b, c][1..] == [c] && [c][1..] == [];
    assert Run(Step(Step(p, a), b), [c]) == Step(Step(Step(p, a), b), c);
    assert Run(Step(p, a), [b, c]) == Step(Step(Step(p, a), b), c);
  }
}
