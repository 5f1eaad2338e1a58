/** The balancer object: loops over its member table, each method proved to take the step that Balancing
    and GroupEvents describe. */
module DynamicGroup {
  import opened Wrappers
  import opened Ids
  import opened NodeHealth
  import opened Balancing
  import opened GroupEvents
  import NodeRuns

  /** Where a stable sort puts a new first element. */
  method InsertEntry(e: Entry, sorted: seq<Entry>) returns (r: seq<Entry>)
    ensures r == Insert(e, sorted)
  {
    var i := 0;
    while i < |sorted| && !Less(e.rank, sorted[i].rank)
      invariant 0 <= i <= |sorted| && Insert(e, sorted) == sorted[..i] + Insert(e, sorted[i..])
    {
      EntryPasses(e, sorted, i);
      i := i + 1;
    }
    return sorted[..i] + [e] + sorted[i..];
  }

  lemma EntryPasses(e: Entry, sorted: seq<Entry>, i: nat)
    requires i < |sorted| && !Less(e.rank, sorted[i].rank)
    ensures sorted[..i] + Insert(e, sorted[i..]) == sorted[..i + 1] + Insert(e, sorted[i + 1..])
  {
    var rest := sorted[i..];
    assert rest[0] == sorted[i] && rest[1..] == sorted[i + 1..];
    assert Insert(e, rest) == [sorted[i]] + Insert(e, sorted[i + 1..]);
    assert sorted[..i + 1] == sorted[..i] + [sorted[i]];
  }

  /** sort.SliceStable on revival candidates. */
  method SortCandidates(entries: seq<Entry>) returns (sorted: seq<Entry>)
    ensures sorted == Sort(entries)
  {
    sorted := [];
    var k := |entries|;
    while k > 0
      invariant 0 <= k <= |entries| && sorted == Sort(entries[k..])
    {
      k := k - 1;
      assert entries[k..][0] == entries[k] && entries[k..][1..] == entries[k + 1..];
      sorted := InsertEntry(entries[k], sorted);
    }
    assert entries[0..] == entries;
  }

  method InsertMember(nodes: map<Id, Node>, x: Id, sorted: seq<Id>) returns (r: seq<Id>)
    ensures r == InsertByLatency(nodes, x, sorted)
  {
    var i := 0;
    while i < |sorted| && Faster(nodes, sorted[i], x)
      invariant 0 <= i <= |sorted| && InsertByLatency(nodes, x, sorted) ==
                  sorted[..i] + InsertByLatency(nodes, x, sorted[i..])
    {
      InsertPasses(nodes, x, sorted, i);
      i := i + 1;
    }
    return sorted[..i] + [x] + sorted[i..];
  }

  lemma InsertPasses(nodes: map<Id, Node>, x: Id, sorted: seq<Id>, i: nat)
    requires i < |sorted| && Faster(nodes, sorted[i], x)
    ensures sorted[..i] + InsertByLatency(nodes, x, sorted[i..]) ==
              sorted[..i + 1] + InsertByLatency(nodes, x, sorted[i + 1..])
  {
    var rest := sorted[i..];
    assert rest[1..] == sorted[i + 1..];
    assert InsertByLatency(nodes, x, rest) == [sorted[i]] + InsertByLatency(nodes, x, sorted[i + 1..]);
    assert sorted[..i + 1] == sorted[..i] + [sorted[i]];
  }

  /** sort.SliceStable by latency (group.go:714). */
  method SortMembers(nodes: map<Id, Node>, ids: seq<Id>) returns (sorted: seq<Id>)
    ensures sorted == SortByLatency(nodes, ids)
  {
    sorted := [];
    var k := |ids|;
    while k > 0
      invariant 0 <= k <= |ids| && sorted == SortByLatency(nodes, ids[k..])
    {
      k := k - 1;
      assert ids[k..][0] == ids[k] && ids[k..][1..] == ids[k + 1..];
      sorted := InsertMember(nodes, ids[k], sorted);
    }
    assert ids[0..] == ids;
  }

  lemma {:induction false} PickSplit(nodes: map<Id, Node>, a: seq<Id>, x: Id, want: Node -> bool)
    ensures Pick(nodes, a + [x], want) == Pick(nodes, a, want) + (if x in nodes && want(nodes[x]) then [x] else [])
  {
    if |a| > 0 {
      PickSplit(nodes, a[1..], x, want);
      assert (a + [x])[1..] == a[1..] + [x];
    } else {
      assert ([] + [x])[1..] == [];
    }
  }

  method PickMembers(nodes: map<Id, Node>, ids: seq<Id>, want: Node -> bool) returns (picked: seq<Id>)
    ensures picked == Pick(nodes, ids, want)
  {
    picked := [];
    for i := 0 to |ids|
      invariant picked == Pick(nodes, ids[..i], want)
    {
      PickSplit(nodes, ids[..i], ids[i], want);
      assert ids[..i + 1] == ids[..i] + [ids[i]];
      if ids[i] in nodes && want(nodes[ids[i]]) {
        picked := picked + [ids[i]];
      }
    }
    assert ids[..|ids|] == ids;
  }

  lemma {:induction false} WithoutSplit(a: seq<Id>, y: Id, x: Id)
    ensures Without(a + [y], x) == Without(a, x) + (if y == x then [] else [y])
  {
    if |a| > 0 {
      WithoutSplit(a[1..], y, x);
      assert (a + [y])[1..] == a[1..] + [y];
    } else {
      assert ([] + [y])[1..] == [];
    }
  }

  /** The manual order (group.go:514): the selected member, then the others. */
  method SelectedFirst(ids: seq<Id>, selected: Id) returns (ordered: seq<Id>)
    ensures ordered == (if selected in ids then [selected] else []) + Without(ids, selected)
  {
    var rest: seq<Id> := [];
    for i := 0 to |ids|
      invariant rest == Without(ids[..i], selected)
    {
      WithoutSplit(ids[..i], ids[i], selected);
      assert ids[..i + 1] == ids[..i] + [ids[i]];
      if ids[i] == selected {
        continue;
      }
      rest := rest + [ids[i]];
    }
    assert ids[..|ids|] == ids;
    return (if selected in ids then [selected] else []) + rest;
  }

  lemma {:induction false} EntriesGrow(g: Group, k: nat, now: int)
    requires k < |g.order|
    ensures Entries(g, k, now) ==
            (if g.order[k] in g.nodes && Revivable(g.nodes[g.order[k]], now) then
               [Entry(g.order[k], CandidateOf(g.nodes[g.order[k]], k))]
             else []) + Entries(g, k + 1, now)
  {
  }

  lemma {:induction false} EligibleSplit(nodes: map<Id, Node>, a: seq<Id>, x: Id, now: int)
    ensures EligibleIds(nodes, a + [x], now) ==
            EligibleIds(nodes, a, now) + (if x in nodes && Eligible(nodes[x], now, false) then [x] else [])
  {
    if |a| > 0 {
      EligibleSplit(nodes, a[1..], x, now);
      assert (a + [x])[1..] == a[1..] + [x];
    } else {
      assert ([] + [x])[1..] == [];
    }
  }

  class Balancer {
    var nodes: map<Id, Node>
    var order: seq<Id>
    var selected: Id
    var policy: Policy
    var turn: nat
    var fallbackTurn: nat

    constructor (p: Policy)
      ensures View() == Group(map[], [], "", Normalized(p), 0, 0)
      ensures WellFormed(View())
    {
      nodes, order, selected := map[], [], "";
      policy := Normalized(p);
      turn, fallbackTurn := 0, 0;
    }

    function View(): Group
      reads this
    {
      Group(nodes, order, selected, policy, turn, fallbackTurn)
    }

    /** candidateState (group.go:532) outside forced mode. */
    method EligibleMembers(now: int) returns (ids: seq<Id>)
      ensures ids == EligibleIds(nodes, order, now)
    {
      ids := [];
      for i := 0 to |order|
        invariant ids == EligibleIds(nodes, order[..i], now)
      {
        EligibleSplit(nodes, order[..i], order[i], now);
        assert order[..i + 1] == order[..i] + [order[i]];
        if order[i] in nodes && Eligible(nodes[order[i]], now, false) {
          ids := ids + [order[i]];
        }
      }
      assert order[..|order|] == order;
    }

    method FixSelection(now: int)
      modifies this`selected
      ensures View() == EnsureSelected(old(View()), now)
    {
      if policy.forceSelected {
        return;
      }
      if selected in nodes && Eligible(nodes[selected], now, false) {
        return;
      }
      var ids := EligibleMembers(now);
      selected := "";
      if |ids| > 0 {
        selected := ids[0];
      }
    }

    /** reviveBlacklistedNodes (group.go:551). */
    method ReviveBlacklisted(now: int) returns (any: bool)
      modifies this`nodes
      ensures View() == Revived(old(View()), now)
      ensures any == (Taken(old(View()), now) != [])
    {
      ghost var g := View();
      var found: seq<Entry> := [];
      var k := |order|;
      while k > 0
        invariant 0 <= k <= |order| && found == Entries(g, k, now) && View() == g
      {
        k := k - 1;
        EntriesGrow(g, k, now);
        if order[k] in nodes && Revivable(nodes[order[k]], now) {
          found := [Entry(order[k], CandidateOf(nodes[order[k]], k))] + found;
        }
      }
      var sorted := SortCandidates(found);
      var limit := if policy.revivalLimit < 0 then 0
                   else if policy.revivalLimit > |sorted| then |sorted|
                   else policy.revivalLimit;
      var woken := IdsOf(sorted[..limit]);
      IdsAt(sorted[..limit]);
      nodes := map x | x in nodes :: if x in woken then Revive(nodes[x]) else nodes[x];
      return |woken| > 0;
    }

    /** The eligible members, after one revival when there are none. */
    method EligibleOrRevived(now: int) returns (eligible: seq<Id>)
      modifies this`nodes
      ensures View() == if EligibleIds(old(nodes), order, now) == [] then Revived(old(View()), now) else old(View())
      ensures eligible == EligibleIds(nodes, order, now)
    {
      eligible := EligibleMembers(now);
      if |eligible| > 0 {
        return;
      }
      ghost var before := View();
      var any := ReviveBlacklisted(now);
      if any {
        eligible := EligibleMembers(now);
      } else {
        NobodyWoken(before, now);
      }
    }

    /** candidates (group.go:494): at most one revival, then the strategy's order. */
    method CandidateList(now: int, shuffle: seq<Id> -> seq<Id>) returns (ids: seq<Id>)
      modifies this
      ensures (View(), ids) == Candidates(old(View()), now, shuffle)
    {
      if policy.forceSelected {
        if selected in nodes && Eligible(nodes[selected], now, true) {
          return [selected];
        }
        return [];
      }
      var eligible := EligibleOrRevived(now);
      if |eligible| == 0 {
        return [];
      }
      ids := TakeTurn(eligible, shuffle);
    }

    /** The strategy's order, and the counters it moves on. */
    method TakeTurn(eligible: seq<Id>, shuffle: seq<Id> -> seq<Id>) returns (list: seq<Id>)
      modifies this`turn, this`fallbackTurn
      ensures (View(), list) == Ordered(old(View()), eligible, shuffle)
    {
      match policy.strategy {
        case Manual =>
          list := SelectedFirst(eligible, selected);
        case LeastLatency =>
          list := FastestFirst(eligible, shuffle);
        case RoundRobin =>
          if |eligible| <= 1 {
            return eligible;
          }
          var start := turn % |eligible|;
          turn := turn + 1;
          list := eligible[start..] + eligible[..start];
        case Random =>
          list := shuffle(eligible);
      }
    }

    /** orderLeastLatencyCandidates (group.go:694): members that answered fast, else any that ever answered, sorted;
        the fallback balancer when nobody ever answered. */
    method FastestFirst(eligible: seq<Id>, shuffle: seq<Id> -> seq<Id>) returns (list: seq<Id>)
      requires policy.strategy == LeastLatency
      modifies this`fallbackTurn
      ensures (View(), list) == Ordered(old(View()), eligible, shuffle)
    {
      var pool := PickMembers(nodes, eligible, (n: Node) => n.candidate);
      if |pool| == 0 {
        pool := PickMembers(nodes, eligible, (n: Node) => !n.candidate && n.lastSuccessAt != 0);
      }
      if |pool| > 0 {
        list := SortMembers(nodes, pool);
        return;
      }
      if policy.fallback == Manual {
        return eligible;
      }
      if policy.fallback == Random {
        return shuffle(eligible);
      }
      if |eligible| <= 1 {
        return eligible;
      }
      var start := fallbackTurn % |eligible|;
      fallbackTurn := fallbackTurn + 1;
      return eligible[start..] + eligible[..start];
    }

    /** MarkNodeFailed (group.go:267). */
    method Fail(id: Id, ttl: int, now: int)
      modifies this`nodes, this`selected
      ensures View() == FailMember(old(View()), id, ttl, now)
    {
      if id !in nodes {
        return;
      }
      var life := ttl;
      if policy.forceSelected {
        life := 0;
      }
      var n := MarkFailed(nodes[id], life, now);
      if !Eligible(n, now, policy.forceSelected) {
        n := n.(active := 0);
      }
      nodes := nodes[id := n];
      FixSelection(now);
    }

    /** A tracked connection is closed (group.go:1107). */
    method CloseConnection(id: Id)
      modifies this`nodes
      ensures View() == Step(old(View()), Close(id), 0, Unshuffled)
    {
      if id in nodes && nodes[id].active > 0 {
        nodes := nodes[id := nodes[id].(active := nodes[id].active - 1)];
      }
    }

    /** A tracked connection fails before its first byte (group.go:1149): it is released, then it counts. */
    method TrafficFailed(id: Id, now: int, shuffle: seq<Id> -> seq<Id>)
      modifies this`nodes, this`selected
      ensures View() == Step(old(View()), TrafficFailure(id), now, shuffle)
    {
      if id !in nodes || nodes[id].active <= 0 {
        return;
      }
      CloseConnection(id);
      CountTrafficFailure(id, now);
    }

    /** emitTrafficFailure (group.go:1033). */
    method CountTrafficFailure(id: Id, now: int)
      modifies this`nodes, this`selected
      ensures View() == FailTraffic(old(View()), id, now)
    {
      if id !in nodes {
        return;
      }
      var threshold := policy.slowThreshold;
      if policy.forceSelected {
        threshold := 0;
      }
      var before := nodes[id];
      var n := CountFailure(before, threshold, policy.failureTtl, now);
      if !StillBlacklisted(before, now) && StillBlacklisted(n, now) {
        n := n.(active := 0);
      }
      nodes := nodes[id := n];
      FixSelection(now);
    }

    /** GC (group.go:314). */
    method CollectReady(now: int)
      modifies this`nodes, this`order, this`selected
      ensures View() == CollectGarbage(old(View()), now)
    {
      ghost var g := View();
      var kept: seq<Id> := [];
      var k := |order|;
      while k > 0
        invariant 0 <= k <= |order| && View() == g && kept == KeepUnready(g, order[k..], now)
      {
        k := k - 1;
        assert order[k..][0] == order[k] && order[k..][1..] == order[k + 1..];
        if !(order[k] in nodes && RemoveReady(nodes[order[k]], now)) {
          kept := [order[k]] + kept;
        }
      }
      assert order[0..] == order;
      if selected in nodes && RemoveReady(nodes[selected], now) {
        selected := "";
      }
      nodes := map x | x in nodes && !RemoveReady(nodes[x], now) :: nodes[x];
      order := kept;
      FixSelection(now);
    }

    /** RemoveNode (group.go:233): tombstone, drain, collect. */
    method Remove(id: Id, ttl: int, now: int)
      modifies this`nodes, this`order, this`selected
      ensures View() == Step(old(View()), RemoveNode(id, ttl), now, Unshuffled)
    {
      if id !in nodes {
        return;
      }
      nodes := nodes[id := Tombstone(nodes[id], ttl, now).(active := 0)];
      FixSelection(now);
      CollectReady(now);
    }

    /** AddNode (group.go:178). */
    method Add(id: Id)
      modifies this`nodes, this`order, this`selected
      ensures View() == Step(old(View()), AddNode(id), 0, Unshuffled)
    {
      if id == "" {
        return;
      }
      if id in nodes {
        nodes := nodes[id := nodes[id].(enabled := true)];
        return;
      }
      nodes := nodes[id := NEW_NODE];
      order := order + [id];
      if selected == "" {
        selected := id;
      }
    }

    /** UpdatePolicy (group.go:204). */
    method SetPolicy(p: Policy)
      modifies this`policy, this`turn, this`fallbackTurn
      ensures View() == Step(old(View()), UpdatePolicy(p), 0, Unshuffled)
    {
      var next := Normalized(p);
      if policy.strategy != next.strategy {
        turn := 0;
      }
      if policy.fallback != next.fallback {
        fallbackTurn := 0;
      }
      policy := next;
    }

    /** DisableNode (group.go:222). */
    method Disable(id: Id, now: int)
      modifies this`nodes, this`selected
      ensures View() == Step(old(View()), DisableNode(id), now, Unshuffled)
    {
      if id !in nodes {
        return;
      }
      nodes := nodes[id := nodes[id].(enabled := false, active := 0)];
      FixSelection(now);
    }

    /** SelectNode (group.go:244). */
    method Select(id: Id, now: int) returns (ok: bool)
      modifies this`selected
      ensures View() == Step(old(View()), SelectNode(id), now, Unshuffled)
      ensures ok == (id in nodes && Eligible(nodes[id], now, policy.forceSelected))
    {
      if id !in nodes || !Eligible(nodes[id], now, policy.forceSelected) {
        return false;
      }
      selected := id;
      return true;
    }

    /** What a dial does to a member that answered. */
    method MarkReached(id: Id, ms: int)
      requires id in nodes
      modifies this`nodes, this`selected
      ensures View() == Reached(old(View()), id, ms)
    {
      var n := MarkAlive(nodes[id]);
      if ms >= 0 {
        n := n.(latencyMs := ms);
      }
      if policy.strategy != Manual {
        selected := id;
      }
      nodes := nodes[id := n];
    }

    /** DialContext (group.go:362): try the candidates in turn until one takes the connection. */
    method DialCandidates(answers: map<Id, DialResult>, now: int, shuffle: seq<Id> -> seq<Id>) returns (taken: seq<Id>)
      modifies this
      ensures View() == Step(old(View()), Dial(answers), now, shuffle)
      ensures |taken| <= 1
    {
      var ids := CandidateList(now, shuffle);
      ghost var goal := DialFrom(View(), ids, answers, now);
      for i := 0 to |ids|
        invariant goal == DialFrom(View(), ids[i..], answers, now)
      {
        var id := ids[i];
        assert ids[i..][0] == id && ids[i..][1..] == ids[i + 1..];
        if id !in nodes {
          continue;
        }
        var answer := if id in answers then answers[id] else NoOutbound;
        if !answer.Connected? {
          Fail(id, policy.failureTtl, now);
          continue;
        }
        MarkReached(id, answer.latencyMs);
        var n := nodes[id];
        if Eligible(n, now, policy.forceSelected) {
          nodes := nodes[id := n.(active := n.active + 1)];
          return [id];
        }
      }
      assert ids[|ids|..] == [];
      return [];
    }

    /** probeCandidates (group.go:958): whom a round of a least-latency group probes. */
    method ProbeCandidates(now: int) returns (ids: seq<Id>)
      requires policy.strategy == LeastLatency
      modifies this`nodes
      ensures View() == StartProbes(old(View()), now) && ids == EligibleIds(nodes, order, now)
    {
      ids := EligibleOrRevived(now);
    }

    /** probeLeastLatencyNode (group.go:980), once the probe is back. */
    method ProbeReturned(id: Id, latency: Option<int>, limits: NodeRuns.Limits, now: int)
      modifies this`nodes
      ensures View() == EndProbe(old(View()), id, latency, limits, now)
    {
      if id !in nodes {
        return;
      }
      var before := nodes[id];
      match latency {
        case Some(ms) =>
          nodes := nodes[id := ProbeSuccess(before, ms, limits.maxLatency, limits.threshold, now)];
        case None =>
          var n := CountFailure(before, limits.threshold, limits.ttl, now);
          if !StillBlacklisted(before, now) && StillBlacklisted(n, now) {
            n := n.(active := 0);
          }
          nodes := nodes[id := n];
      }
    }

    /** ProbeLeastLatencyGroup (core.go:327) with the probes one after the other: a round, then the best candidate
        is selected. */
    method ProbeRound(answers: map<Id, int>, limits: NodeRuns.Limits, now: int, shuffle: seq<Id> -> seq<Id>)
      modifies this
      ensures View() == ProbeGroup(old(View()), answers, limits, now, shuffle)
    {
      if policy.strategy != LeastLatency {
        return;
      }
      var ids := ProbeCandidates(now);
      ghost var goal := EndProbes(View(), ids, answers, limits, now);
      for i := 0 to |ids|
        invariant goal == EndProbes(View(), ids[i..], answers, limits, now)
      {
        assert ids[i..][0] == ids[i] && ids[i..][1..] == ids[i + 1..];
        ProbeReturned(ids[i], if ids[i] in answers then Some(answers[ids[i]]) else None, limits, now);
      }
      assert ids[|ids|..] == [];
      EndProbesKeep(old(StartProbes(View(), now)), ids, answers, limits, now);
      var list := CandidateList(now, shuffle);
      if |list| > 0 && list[0] in nodes {
        selected := list[0];
      }
    }
  }

  lemma NobodyWoken(g: Group, now: int)
    requires Taken(g, now) == []
    ensures Revived(g, now) == g
  {
  }
}
