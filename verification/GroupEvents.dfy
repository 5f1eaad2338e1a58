/** What dials, failures and management calls do to a group, one after another, and what whole runs of
    them cannot do (core/singboxcore/group.go). */
module GroupEvents {
  import opened Wrappers
  import opened Ids
  import opened NodeHealth
  import NodeRuns
  import opened Balancing

  /** What the outbound of a member answers when dialled. */
  datatype DialResult = NoOutbound | Refused | Connected(latencyMs: int)

  datatype Event =
    | Dial(answers: map<Id, DialResult>)
    | Close(id: Id)
    | TrafficFailure(id: Id)
    | AddNode(id: Id)
    | DisableNode(id: Id)
    | RemoveNode(id: Id, ttl: int)
    | SelectNode(id: Id)
    | MarkNodeAlive(id: Id)
    | MarkNodeFailed(id: Id, ttl: int)
    | UpdatePolicy(policy: Policy)
    | Collect
    | ProbeStarts
    | ProbeEnds(id: Id, latency: Option<int>, limits: NodeRuns.Limits)
    | SelectFastest

  // ---------------------------------------------------------------- single steps

  /** ensureSelected (group.go:776). */
  function EnsureSelected(g: Group, now: int): Group {
    if g.policy.forceSelected then g
    else if g.selected in g.nodes && Eligible(g.nodes[g.selected], now, false) then g
    else
      var ids := EligibleIds(g.nodes, g.order, now);
      g.(selected := if ids == [] then "" else ids[0])
  }

  function With(g: Group, id: Id, n: Node): Group {
    g.(nodes := g.nodes[id := n])
  }

  /** Connections of a member that may not serve are closed. */
  function Drained(n: Node, keep: bool): Node {
    if keep then n else n.(active := 0)
  }

  /** MarkNodeFailed (group.go:267): forced mode never blacklists. */
  function FailMember(g: Group, id: Id, ttl: int, now: int): Group {
    if id !in g.nodes then g
    else
      var n := MarkFailed(g.nodes[id], if g.policy.forceSelected then 0 else ttl, now);
      EnsureSelected(With(g, id, Drained(n, Eligible(n, now, g.policy.forceSelected))), now)
  }

  /** releaseActive (group.go:1135): one connection of a member less. */
  function Release(g: Group, id: Id): Group {
    if id in g.nodes && g.nodes[id].active > 0 then With(g, id, g.nodes[id].(active := g.nodes[id].active - 1)) else g
  }

  /** reportPreFirstByteFailure (group.go:1149): an open connection that fails is released, then counts. */
  function FailConnection(g: Group, id: Id, now: int): Group {
    if id in g.nodes && g.nodes[id].active > 0 then FailTraffic(Release(g, id), id, now) else g
  }

  /** emitTrafficFailure (group.go:1033). */
  function FailTraffic(g: Group, id: Id, now: int): Group {
    if id !in g.nodes then g
    else
      var before := g.nodes[id];
      var threshold := if g.policy.forceSelected then 0 else g.policy.slowThreshold;
      var n := CountFailure(before, threshold, g.policy.failureTtl, now);
      var hit := !StillBlacklisted(before, now) && StillBlacklisted(n, now);
      EnsureSelected(With(g, id, Drained(n, !hit)), now)
  }

  function KeepUnready(g: Group, order: seq<Id>, now: int): seq<Id> {
    if |order| == 0 then []
    else
      (if order[0] in g.nodes && RemoveReady(g.nodes[order[0]], now) then [] else [order[0]])
      + KeepUnready(g, order[1..], now)
  }

  /** GC (group.go:314). */
  function CollectGarbage(g: Group, now: int): Group {
    EnsureSelected(
      g.(nodes := map x | x in g.nodes && !RemoveReady(g.nodes[x], now) :: g.nodes[x],
         order := KeepUnready(g, g.order, now),
         selected := if g.selected in g.nodes && RemoveReady(g.nodes[g.selected], now) then "" else g.selected), now)
  }

  /** A member that answered a dial: alive, its latency noted, and selected unless selection is manual. */
  function Reached(g: Group, x: Id, ms: int): (h: Group)
    requires x in g.nodes
    ensures x in h.nodes
  {
    With(if g.policy.strategy == Manual then g else g.(selected := x), x,
         MarkAlive(g.nodes[x]).(latencyMs := if ms < 0 then g.nodes[x].latencyMs else ms))
  }

  /** The candidate loop of DialContext (group.go:362); the second result says who took the connection. */
  function DialFrom(g: Group, ids: seq<Id>, answers: map<Id, DialResult>, now: int): (Group, seq<Id>)
    decreases |ids|
  {
    if |ids| == 0 then (g, [])
    else if ids[0] !in g.nodes then DialFrom(g, ids[1..], answers, now)
    else
      match (if ids[0] in answers then answers[ids[0]] else NoOutbound)
      case NoOutbound => DialFrom(FailMember(g, ids[0], g.policy.failureTtl, now), ids[1..], answers, now)
      case Refused => DialFrom(FailMember(g, ids[0], g.policy.failureTtl, now), ids[1..], answers, now)
      case Connected(ms) =>
        var h := Reached(g, ids[0], ms);
        var n := h.nodes[ids[0]];
        if Eligible(n, now, g.policy.forceSelected) then (With(h, ids[0], n.(active := n.active + 1)), [ids[0]])
        else DialFrom(h, ids[1..], answers, now)
  }

  /** UpdatePolicy (group.go:204): a new strategy starts with a new balancer, the same one keeps its turn. */
  function Refresh(g: Group, p: Policy): Group {
    g.(policy := p,
       turn := if p.strategy == g.policy.strategy then g.turn else 0,
       fallbackTurn := if p.fallback == g.policy.fallback then g.fallbackTurn else 0)
  }

  /** probeCandidates (group.go:958), at the start of a latency probe round: somebody is woken when nobody could
      be probed. */
  function StartProbes(g: Group, now: int): Group {
    if g.policy.strategy == LeastLatency && EligibleIds(g.nodes, g.order, now) == [] then Revived(g, now) else g
  }

  /** probeLeastLatencyNode (group.go:980): one probe comes back, with a latency or without, and counts by the limits
      of the policy under which its round began. */
  function EndProbe(g: Group, id: Id, latency: Option<int>, limits: NodeRuns.Limits, now: int): Group {
    if id !in g.nodes then g
    else
      var before := g.nodes[id];
      var n := NodeRuns.Apply(before, if latency.Some? then NodeRuns.Answer(latency.value, now) else NodeRuns.Miss(now),
                              limits);
      With(g, id, Drained(n, StillBlacklisted(before, now) || !StillBlacklisted(n, now)))
  }

  /** SelectBestLeastLatencyCandidate (group.go:823). */
  function SelectBest(g: Group, now: int, shuffle: seq<Id> -> seq<Id>): Group {
    if g.policy.strategy != LeastLatency then g
    else
      var (h, ids) := Candidates(g, now, shuffle);
      if ids != [] && ids[0] in h.nodes then h.(selected := ids[0]) else h
  }

  /** What a shuffle is for the events that never shuffle. */
  function Unshuffled(ids: seq<Id>): seq<Id> {
    ids
  }

  /** One event; shuffle is the arrangement a random balancer picks. */
  function Step(g: Group, e: Event, now: int, shuffle: seq<Id> -> seq<Id>): Group {
    match e
    case Dial(answers) =>
      var (h, ids) := Candidates(g, now, shuffle);
      DialFrom(h, ids, answers, now).0
    case Close(id) => Release(g, id)
    case TrafficFailure(id) => FailConnection(g, id, now)
    case AddNode(id) =>
      if id == "" then g
      else if id in g.nodes then With(g, id, g.nodes[id].(enabled := true))
      else
        g.(nodes := g.nodes[id := NEW_NODE], order := g.order + [id],
           selected := if g.selected == "" then id else g.selected)
    case DisableNode(id) =>
      if id !in g.nodes then g else EnsureSelected(With(g, id, g.nodes[id].(enabled := false, active := 0)), now)
    case RemoveNode(id, ttl) =>
      if id !in g.nodes then g
      else CollectGarbage(EnsureSelected(With(g, id, Tombstone(g.nodes[id], ttl, now).(active := 0)), now), now)
    case SelectNode(id) =>
      if id in g.nodes && Eligible(g.nodes[id], now, g.policy.forceSelected) then g.(selected := id) else g
    case MarkNodeAlive(id) => if id !in g.nodes then g else With(g, id, MarkAlive(g.nodes[id]))
    case MarkNodeFailed(id, ttl) => FailMember(g, id, ttl, now)
    case UpdatePolicy(p) => Refresh(g, Normalized(p))
    case Collect => CollectGarbage(g, now)
    case ProbeStarts => StartProbes(g, now)
    case ProbeEnds(id, latency, limits) => EndProbe(g, id, latency, limits, now)
    case SelectFastest => SelectBest(g, now, shuffle)
  }

  function Run(g: Group, events: seq<(Event, int)>, shuffle: seq<Id> -> seq<Id>): Group
    decreases |events|
  {
    if events == [] then g else Run(Step(g, events[0].0, events[0].1, shuffle), events[1..], shuffle)
  }

  // ---------------------------------------------------------------- the member list stays consistent

  lemma {:induction false} KeepUnreadyContents(g: Group, order: seq<Id>, now: int)
    ensures forall x :: x in KeepUnready(g, order, now) <==>
              x in order && !(x in g.nodes && RemoveReady(g.nodes[x], now))
    ensures Distinct(order) ==> Distinct(KeepUnready(g, order, now))
  {
    if |order| > 0 {
      KeepUnreadyContents(g, order[1..], now);
      assert order == [order[0]] + order[1..];
      if Distinct(order) {
        assert order[0] !in order[1..];
      }
    }
  }

  lemma {:induction false} DialFromWellFormed(g: Group, ids: seq<Id>, answers: map<Id, DialResult>, now: int)
    requires WellFormed(g)
    ensures WellFormed(DialFrom(g, ids, answers, now).0)
    decreases |ids|
  {
    if |ids| > 0 {
      if ids[0] !in g.nodes {
        DialFromWellFormed(g, ids[1..], answers, now);
      } else {
        DialFromWellFormed(FailMember(g, ids[0], g.policy.failureTtl, now), ids[1..], answers, now);
        var a := if ids[0] in answers then answers[ids[0]] else NoOutbound;
        if a.Connected? {
          DialFromWellFormed(Reached(g, ids[0], a.latencyMs), ids[1..], answers, now);
        }
      }
    }
  }

  lemma CandidatesKeepMembers(g: Group, now: int, shuffle: seq<Id> -> seq<Id>)
    ensures var h := Candidates(g, now, shuffle).0;
            h.nodes.Keys == g.nodes.Keys && h.order == g.order && h.selected == g.selected && h.policy == g.policy
  {
    var g1 := if EligibleIds(g.nodes, g.order, now) == [] then Revived(g, now) else g;
    OrderedKeepsMembers(g1, EligibleIds(g1.nodes, g1.order, now), shuffle);
  }

  /** Every event keeps the order listing every member exactly once. */
  lemma StepKeepsOrder(g: Group, e: Event, now: int, shuffle: seq<Id> -> seq<Id>)
    requires WellFormed(g)
    ensures WellFormed(Step(g, e, now, shuffle))
  {
    match e
    case Dial(answers) =>
      CandidatesKeepMembers(g, now, shuffle);
      var (h, ids) := Candidates(g, now, shuffle);
      DialFromWellFormed(h, ids, answers, now);
    case RemoveNode(id, ttl) =>
      if id in g.nodes {
        CollectKeepsOrder(EnsureSelected(With(g, id, Tombstone(g.nodes[id], ttl, now).(active := 0)), now), now);
      }
    case Collect => CollectKeepsOrder(g, now);
    case ProbeStarts => RevivedWellFormed(g, now);
    case SelectFastest => CandidatesKeepMembers(g, now, shuffle);
    case _ =>
  }

  lemma CollectKeepsOrder(g: Group, now: int)
    requires WellFormed(g)
    ensures WellFormed(CollectGarbage(g, now))
  {
    KeepUnreadyContents(g, g.order, now);
  }

  // ---------------------------------------------------------------- who takes the connection

  predicate Connects(answers: map<Id, DialResult>, x: Id) {
    x in answers && answers[x].Connected?
  }

  predicate Usable(g: Group, x: Id) {
    x in g.nodes && g.nodes[x].enabled && !g.nodes[x].tombstoned
  }

  /** A dial goes to the first candidate that connects; it fails exactly when none does. */
  lemma {:induction false} DialTakesFirstConnected(g: Group, ids: seq<Id>, answers: map<Id, DialResult>, now: int)
    requires forall x :: x in ids ==> Usable(g, x)
    ensures var taken := DialFrom(g, ids, answers, now).1;
            && (taken == [] <==> forall x :: x in ids ==> !Connects(answers, x))
            && (taken != [] ==> exists k :: 0 <= k < |ids| && taken == [ids[k]] && Connects(answers, ids[k])
                                           && forall j :: 0 <= j < k ==> !Connects(answers, ids[j]))
    decreases |ids|
  {
    if |ids| > 0 {
      assert ids == [ids[0]] + ids[1..];
      assert Usable(g, ids[0]);
      if !Connects(answers, ids[0]) {
        var f := FailMember(g, ids[0], g.policy.failureTtl, now);
        var rest := ids[1..];
        forall x | x in rest
          ensures Usable(f, x)
        {
          assert Usable(g, x);
        }
        DialTakesFirstConnected(f, rest, answers, now);
        var taken := DialFrom(f, rest, answers, now).1;
        if taken != [] {
          var k :| 0 <= k < |rest| && taken == [rest[k]] && Connects(answers, rest[k])
                && forall j :: 0 <= j < k ==> !Connects(answers, rest[j]);
          assert ids[k + 1] == rest[k];
          forall j | 0 <= j < k + 1
            ensures !Connects(answers, ids[j])
          {
            if j > 0 {
              assert ids[j] == rest[j - 1];
            }
          }
        }
      }
    }
  }

  // ---------------------------------------------------------------- forced selection

  ghost predicate Forced(g: Group) {
    g.policy.forceSelected && g.policy.strategy == Manual
  }

  /** Nobody becomes blacklisted between two states. */
  ghost predicate NoNewBlacklist(g: Group, h: Group) {
    forall x :: x in h.nodes && h.nodes[x].health == Blacklisted ==> x in g.nodes && g.nodes[x].health == Blacklisted
  }

  /** A forced dial tries the selected member and nobody else. */
  lemma ForcedDialTriesSelected(g: Group, now: int, shuffle: seq<Id> -> seq<Id>)
    requires g.policy.forceSelected
    ensures var (h, ids) := Candidates(g, now, shuffle);
            && h == g
            && ids == (if g.selected in g.nodes && g.nodes[g.selected].enabled
                       && !g.nodes[g.selected].tombstoned then [g.selected] else [])
  {
  }

  lemma {:induction false} ForcedDialFrom(g: Group, ids: seq<Id>, answers: map<Id, DialResult>, now: int)
    requires Forced(g)
    ensures var h := DialFrom(g, ids, answers, now).0;
            && h.policy == g.policy && h.selected == g.selected && h.nodes.Keys == g.nodes.Keys && NoNewBlacklist(g, h)
    decreases |ids|
  {
    if |ids| > 0 {
      if ids[0] !in g.nodes {
        ForcedDialFrom(g, ids[1..], answers, now);
      } else {
        var f := FailMember(g, ids[0], g.policy.failureTtl, now);
        ForcedDialFrom(f, ids[1..], answers, now);
        var a := if ids[0] in answers then answers[ids[0]] else NoOutbound;
        if a.Connected? {
          ForcedDialFrom(Reached(g, ids[0], a.latencyMs), ids[1..], answers, now);
        }
      }
    }
  }

  /** A probe that began under another policy comes back without an answer, once too often. */
  ghost predicate LateMiss(g: Group, e: Event) {
    && e.ProbeEnds? && e.id in g.nodes && e.latency == None && g.nodes[e.id].health != Blacklisted
    && e.limits.threshold > 0 && g.nodes[e.id].failures + 1 >= e.limits.threshold
  }

  /** One event under a forced manual policy: nobody is blacklisted but by a late probe, and the selection moves
      only to the member selected by hand, to nobody when the selected member is gone, or to the first member
      added to an empty selection. */
  lemma ForcedStep(g: Group, e: Event, now: int, shuffle: seq<Id> -> seq<Id>)
    requires Forced(g) && WellFormed(g) && !e.UpdatePolicy?
    ensures var h := Step(g, e, now, shuffle);
            && h.policy == g.policy && (NoNewBlacklist(g, h) <==> !LateMiss(g, e))
            && (h.selected == g.selected
                || (e.SelectNode? && h.selected == e.id && e.id in g.nodes && g.nodes[e.id].enabled
                    && !g.nodes[e.id].tombstoned)
                || (e.AddNode? && g.selected == "" && h.selected == e.id)
                || ((e.RemoveNode? || e.Collect?) && h.selected == "" && g.selected !in h.nodes))
  {
    match e
    case Dial(answers) =>
      ForcedDialTriesSelected(g, now, shuffle);
      ForcedDialFrom(g, Candidates(g, now, shuffle).1, answers, now);
    case ProbeEnds(id, latency, limits) => ForcedProbe(g, id, latency, limits, now);
    case _ =>
  }

  lemma ForcedProbe(g: Group, id: Id, latency: Option<int>, limits: NodeRuns.Limits, now: int)
    requires Forced(g)
    ensures var h := EndProbe(g, id, latency, limits, now);
            && h.policy == g.policy && h.selected == g.selected
            && (NoNewBlacklist(g, h) <==> !LateMiss(g, ProbeEnds(id, latency, limits)))
  {
    if LateMiss(g, ProbeEnds(id, latency, limits)) {
      assert EndProbe(g, id, latency, limits, now).nodes[id].health == Blacklisted;
    }
  }

  /** No probe of the run comes back without an answer. */
  predicate NoMiss(events: seq<(Event, int)>) {
    forall i :: 0 <= i < |events| ==> !(events[i].0.ProbeEnds? && events[i].0.latency == None)
  }

  /** Over a whole run: no sequence of dials, failures and probes moves the selection, and nobody is blacklisted
      unless a late probe misses. */
  lemma {:induction false} ForcedRunIsIsolated(g: Group, events: seq<(Event, int)>, shuffle: seq<Id> -> seq<Id>)
    requires Forced(g) && WellFormed(g)
    requires forall i :: 0 <= i < |events| ==>
               events[i].0.Dial? || events[i].0.Close? || events[i].0.TrafficFailure? || events[i].0.MarkNodeFailed?
                 || events[i].0.MarkNodeAlive? || events[i].0.ProbeStarts? || events[i].0.ProbeEnds?
                 || events[i].0.SelectFastest?
               || events[i].0.DisableNode? || (events[i].0.AddNode? && g.selected != "")
    ensures var h := Run(g, events, shuffle);
            h.selected == g.selected && h.policy == g.policy && (NoMiss(events) ==> NoNewBlacklist(g, h))
    decreases |events|
  {
    if events != [] {
      var e := events[0].0;
      ForcedStep(g, e, events[0].1, shuffle);
      StepKeepsOrder(g, e, events[0].1, shuffle);
      ForcedRunIsIsolated(Step(g, e, events[0].1, shuffle), events[1..], shuffle);
    }
  }

  // ---------------------------------------------------------------- dead members

  ghost predicate DeadIn(g: Group, x: Id) {
    x in g.nodes && g.nodes[x].health == Dead
  }

  lemma {:induction false} DialLeavesDead(g: Group, ids: seq<Id>, answers: map<Id, DialResult>, now: int, x: Id)
    requires DeadIn(g, x) && x !in ids
    ensures DialFrom(g, ids, answers, now).0.nodes.Keys == g.nodes.Keys && DeadIn(DialFrom(g, ids, answers, now).0, x)
    decreases |ids|
  {
    if |ids| > 0 {
      assert ids == [ids[0]] + ids[1..];
      if ids[0] !in g.nodes {
        DialLeavesDead(g, ids[1..], answers, now, x);
      } else {
        DialLeavesDead(FailMember(g, ids[0], g.policy.failureTtl, now), ids[1..], answers, now, x);
        var a := if ids[0] in answers then answers[ids[0]] else NoOutbound;
        if a.Connected? {
          DialLeavesDead(Reached(g, ids[0], a.latencyMs), ids[1..], answers, now, x);
        }
      }
    }
  }

  lemma DeadIsNoCandidate(g: Group, now: int, shuffle: seq<Id> -> seq<Id>, x: Id)
    requires WellFormed(g) && !g.policy.forceSelected && g.policy.revivalLimit > 0 && Permutes(shuffle) && DeadIn(g, x)
    ensures x !in Candidates(g, now, shuffle).1 && DeadIn(Candidates(g, now, shuffle).0, x)
  {
    NoAvoidableOutage(g, now, shuffle);
    RevivedWellFormed(g, now);
  }

  /** Outside forced mode a dead member is never dialled, and what brings it back is exactly: an explicit
      mark alive, an explicit failure with a lifetime, the failure of a connection it still has that reaches
      the threshold, or a probe still under way that is answered or reaches the threshold. */
  lemma DeadStaysDeadUnless(g: Group, e: Event, now: int, shuffle: seq<Id> -> seq<Id>, x: Id)
    requires WellFormed(g) && !g.policy.forceSelected && g.policy.revivalLimit > 0 && Permutes(shuffle) && DeadIn(g, x)
    ensures var h := Step(g, e, now, shuffle);
            x in h.nodes ==>
              (DeadIn(h, x) <==>
                !(|| (e.MarkNodeAlive? && e.id == x)
                  || (e.MarkNodeFailed? && e.id == x && e.ttl > 0)
                  || (e.TrafficFailure? && e.id == x && g.nodes[x].active > 0 && g.policy.slowThreshold > 0
                      && g.nodes[x].failures + 1 >= g.policy.slowThreshold)
                  || (e.ProbeEnds? && e.id == x
                      && (e.latency.Some?
                          || (e.limits.threshold > 0 && g.nodes[x].failures + 1 >= e.limits.threshold)))))
  {
    match e
    case Dial(answers) =>
      DeadIsNoCandidate(g, now, shuffle, x);
      var (h, ids) := Candidates(g, now, shuffle);
      DialLeavesDead(h, ids, answers, now, x);
    case ProbeStarts => RevivedWellFormed(g, now);
    case SelectFastest => DeadIsNoCandidate(g, now, shuffle, x);
    case _ =>
  }

  /** A forced group with a single member whose dial is refused. */
  function ForcedPair(): Group {
    Group(map["a" := NEW_NODE], ["a"], "a", Policy(Manual, true, 30, 120, 3, 3, RoundRobin), 0, 0)
  }

  /** After one refused dial in forced mode, lifting the policy leaves a group with no candidate. */
  lemma ForcedFailureOutlivesPolicy(shuffle: seq<Id> -> seq<Id>)
    requires Permutes(shuffle)
    ensures var g1 := Step(ForcedPair(), Dial(map["a" := Refused]), 5, shuffle);
            var g2 := Step(g1, UpdatePolicy(Policy(Manual, false, 30, 120, 3, 3, RoundRobin)), 6, shuffle);
            forall now :: Candidates(g2, now, shuffle).1 == []
  {
    var g := ForcedPair();
    ForcedDialTriesSelected(g, 5, shuffle);
    assert Candidates(g, 5, shuffle) == (g, ["a"]);
    var f := FailMember(g, "a", 30, 5);
    assert ["a"][1..] == [];
    assert DialFrom(f, [], map["a" := Refused], 5) == (f, []);
    var g1 := Step(g, Dial(map["a" := Refused]), 5, shuffle);
    assert g1 == f;
    var g2 := Step(g1, UpdatePolicy(Policy(Manual, false, 30, 120, 3, 3, RoundRobin)), 6, shuffle);
    assert DeadIn(g2, "a") && WellFormed(g2);
    forall now
      ensures Candidates(g2, now, shuffle).1 == []
    {
      NoAvoidableOutage(g2, now, shuffle);
    }
  }

  /** Probes of one member started under least latency with a threshold of one; meanwhile the policy became forced. */
  lemma LateProbeBlacklistsForced(shuffle: seq<Id> -> seq<Id>)
    ensures var g := ForcedPair().(nodes := map["a" := NEW_NODE.(active := 2)]);
            var h := Step(g, ProbeEnds("a", None, NodeRuns.Limits(500, 1, 30)), 5, shuffle);
            Forced(g) && h.nodes["a"].health == Blacklisted && h.nodes["a"].active == 0
  {
  }

  // ---------------------------------------------------------------- a whole round of probes

  /** The probes of a round come back, in the order of ids. */
  function EndProbes(g: Group, ids: seq<Id>, answers: map<Id, int>, limits: NodeRuns.Limits, now: int): Group
    decreases |ids|
  {
    if |ids| == 0 then g
    else
      var latency := if ids[0] in answers then Some(answers[ids[0]]) else None;
      EndProbes(EndProbe(g, ids[0], latency, limits, now), ids[1..], answers, limits, now)
  }

  /** x answered within the limit. */
  predicate AnswersFast(answers: map<Id, int>, limits: NodeRuns.Limits, x: Id) {
    x in answers && answers[x] > 0 && (limits.maxLatency <= 0 || answers[x] <= limits.maxLatency)
  }

  lemma {:induction false} EndProbesKeep(g: Group, ids: seq<Id>, answers: map<Id, int>, limits: NodeRuns.Limits,
                                         now: int)
    ensures var h := EndProbes(g, ids, answers, limits, now);
            h.nodes.Keys == g.nodes.Keys && h.order == g.order && h.policy == g.policy
    ensures forall x :: x in g.nodes && x !in ids ==> EndProbes(g, ids, answers, limits, now).nodes[x] == g.nodes[x]
    decreases |ids|
  {
    if |ids| > 0 {
      var latency := if ids[0] in answers then Some(answers[ids[0]]) else None;
      EndProbesKeep(EndProbe(g, ids[0], latency, limits, now), ids[1..], answers, limits, now);
      assert ids == [ids[0]] + ids[1..];
    }
  }

  /** A member that answered fast is eligible, a candidate, and has the latency it answered with. */
  lemma {:induction false} FastAnswersCount(g: Group, ids: seq<Id>, answers: map<Id, int>, limits: NodeRuns.Limits,
                                            now: int, x: Id)
    requires Distinct(ids) && x in ids && x in g.nodes && AnswersFast(answers, limits, x)
    requires g.nodes[x].enabled && !g.nodes[x].tombstoned
    ensures var h := EndProbes(g, ids, answers, limits, now);
            x in h.nodes && Eligible(h.nodes[x], now, false) && h.nodes[x].candidate
              && h.nodes[x].latencyMs == answers[x]
    decreases |ids|
  {
    var latency := if ids[0] in answers then Some(answers[ids[0]]) else None;
    var d := EndProbe(g, ids[0], latency, limits, now);
    assert ids == [ids[0]] + ids[1..];
    if x == ids[0] {
      assert x !in ids[1..];
      EndProbesKeep(d, ids[1..], answers, limits, now);
    } else {
      FastAnswersCount(d, ids[1..], answers, limits, now, x);
    }
  }

  /** Who heads the candidates of a least-latency group is not slower than any eligible candidate. */
  lemma FastestHeads(g: Group, now: int, shuffle: seq<Id> -> seq<Id>, x: Id)
    requires WellFormed(g) && !g.policy.forceSelected && g.policy.strategy == LeastLatency
    requires x in g.nodes && Eligible(g.nodes[x], now, false) && g.nodes[x].candidate && g.nodes[x].latencyMs > 0
    ensures var (h, ids) := Candidates(g, now, shuffle);
            && h == g && ids != [] && ids[0] in g.nodes && g.nodes[ids[0]].candidate
            && Eligible(g.nodes[ids[0]], now, false)
            && 0 < g.nodes[ids[0]].latencyMs <= g.nodes[x].latencyMs
  {
    EligibleIdsContents(g.nodes, g.order, now);
    var ids := EligibleIds(g.nodes, g.order, now);
    assert x in g.order && x in ids;
    var fast := Pick(g.nodes, ids, (n: Node) => n.candidate);
    PickContents(g.nodes, ids, (n: Node) => n.candidate);
    assert x in fast;
    var list := SortByLatency(g.nodes, fast);
    SortByLatencyContents(g.nodes, fast);
    LatencyOrderIsSorted(g.nodes, fast);
    assert x in multiset(list) && list[0] in multiset(fast);
    var k :| 0 <= k < |list| && list[k] == x;
    assert k > 0 ==> !Faster(g.nodes, list[k], list[0]);
  }

  /** The group when all probes of an undisturbed round are back. */
  function Probed(g: Group, answers: map<Id, int>, limits: NodeRuns.Limits, now: int): Group {
    var g1 := StartProbes(g, now);
    EndProbes(g1, EligibleIds(g1.nodes, g1.order, now), answers, limits, now)
  }

  /** ProbeLeastLatencyGroup (core.go:327): probe everybody who is eligible, then select. */
  function ProbeGroup(g: Group, answers: map<Id, int>, limits: NodeRuns.Limits, now: int,
                      shuffle: seq<Id> -> seq<Id>): Group {
    if g.policy.strategy != LeastLatency then g else SelectBest(Probed(g, answers, limits, now), now, shuffle)
  }

  lemma ProbedKeepsOrder(g: Group, answers: map<Id, int>, limits: NodeRuns.Limits, now: int)
    requires WellFormed(g)
    ensures WellFormed(Probed(g, answers, limits, now)) && Probed(g, answers, limits, now).policy == g.policy
  {
    RevivedWellFormed(g, now);
    var g1 := StartProbes(g, now);
    EndProbesKeep(g1, EligibleIds(g1.nodes, g1.order, now), answers, limits, now);
  }

  lemma FastOnesCount(g: Group, answers: map<Id, int>, limits: NodeRuns.Limits, now: int, x: Id)
    requires WellFormed(g) && AnswersFast(answers, limits, x)
    requires x in EligibleIds(StartProbes(g, now).nodes, StartProbes(g, now).order, now)
    ensures var h := Probed(g, answers, limits, now);
            x in h.nodes && Eligible(h.nodes[x], now, false) && h.nodes[x].candidate
              && h.nodes[x].latencyMs == answers[x]
  {
    RevivedWellFormed(g, now);
    var g1 := StartProbes(g, now);
    EligibleIdsContents(g1.nodes, g1.order, now);
    FastAnswersCount(g1, EligibleIds(g1.nodes, g1.order, now), answers, limits, now, x);
  }

  /** After an undisturbed round the selected member is an eligible candidate, and no member that answered within
      the limit was faster. */
  lemma ProbedGroupSelectsFastest(g: Group, answers: map<Id, int>, limits: NodeRuns.Limits, now: int,
                                  shuffle: seq<Id> -> seq<Id>, x: Id)
    requires WellFormed(g) && !g.policy.forceSelected && g.policy.strategy == LeastLatency
    requires x in EligibleIds(StartProbes(g, now).nodes, StartProbes(g, now).order, now)
    requires AnswersFast(answers, limits, x)
    ensures var h := ProbeGroup(g, answers, limits, now, shuffle);
            && h.selected in h.nodes && h.nodes[h.selected].candidate && Eligible(h.nodes[h.selected], now, false)
            && 0 < h.nodes[h.selected].latencyMs <= answers[x]
  {
    ProbedKeepsOrder(g, answers, limits, now);
    FastOnesCount(g, answers, limits, now, x);
    FastestHeads(Probed(g, answers, limits, now), now, shuffle, x);
  }
}
