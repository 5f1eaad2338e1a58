/** The balancer's choices as functions of the group's state (core/singboxcore/group.go): who may serve,
    who is revived, what each event does to health and selection. */
module Balancing {
  import opened Ids
  import opened NodeHealth

  datatype Strategy = Manual | RoundRobin | LeastLatency | Random

  datatype Policy = Policy(strategy: Strategy, forceSelected: bool, failureTtl: int, removeTtl: int,
                           slowThreshold: int, revivalLimit: int, fallback: Strategy)

  datatype Group = Group(nodes: map<Id, Node>, order: seq<Id>, selected: Id, policy: Policy,
                         turn: nat, fallbackTurn: nat)

  /** The order lists every member once. */
  ghost predicate WellFormed(g: Group) {
    Distinct(g.order) && (forall x :: x in g.order <==> x in g.nodes) && "" !in g.nodes
  }

  /** Policy.normalized (group.go:90), the fields that steer choices. */
  function Normalized(p: Policy): Policy {
    p.(failureTtl := if p.failureTtl <= 0 then 30 else p.failureTtl,
       removeTtl := if p.removeTtl <= 0 then 120 else p.removeTtl,
       slowThreshold := if p.slowThreshold <= 0 then 3 else p.slowThreshold,
       revivalLimit := if p.revivalLimit <= 0 then 3 else p.revivalLimit)
  }

  // ---------------------------------------------------------------- who may serve

  function EligibleIds(nodes: map<Id, Node>, order: seq<Id>, now: int): seq<Id> {
    if |order| == 0 then []
    else
      (if order[0] in nodes && Eligible(nodes[order[0]], now, false) then [order[0]] else [])
      + EligibleIds(nodes, order[1..], now)
  }

  lemma {:induction false} EligibleIdsContents(nodes: map<Id, Node>, order: seq<Id>, now: int)
    ensures forall x :: x in EligibleIds(nodes, order, now) <==>
              x in order && x in nodes && Eligible(nodes[x], now, false)
    ensures Distinct(order) ==> Distinct(EligibleIds(nodes, order, now))
  {
    if |order| > 0 {
      EligibleIdsContents(nodes, order[1..], now);
      assert order == [order[0]] + order[1..];
      if Distinct(order) {
        assert order[0] !in order[1..];
      }
    }
  }

  // ---------------------------------------------------------------- who is revived

  datatype Entry = Entry(id: Id, rank: Candidate)

  /** Revival candidates from position k of the order on, each with its position. */
  function Entries(g: Group, k: nat, now: int): seq<Entry>
    decreases |g.order| - k
  {
    if k >= |g.order| then []
    else
      (if g.order[k] in g.nodes && Revivable(g.nodes[g.order[k]], now) then
         [Entry(g.order[k], CandidateOf(g.nodes[g.order[k]], k))]
       else [])
      + Entries(g, k + 1, now)
  }

  function Insert(e: Entry, sorted: seq<Entry>): seq<Entry> {
    if |sorted| == 0 || Less(e.rank, sorted[0].rank) then [e] + sorted else [sorted[0]] + Insert(e, sorted[1..])
  }

  function Sort(entries: seq<Entry>): seq<Entry> {
    if |entries| == 0 then [] else Insert(entries[0], Sort(entries[1..]))
  }

  function Taken(g: Group, now: int): seq<Entry> {
    var sorted := Sort(Entries(g, 0, now));
    var limit := g.policy.revivalLimit;
    sorted[..if limit < 0 then 0 else if limit > |sorted| then |sorted| else limit]
  }

  function IdsOf(entries: seq<Entry>): seq<Id> {
    if |entries| == 0 then [] else [entries[0].id] + IdsOf(entries[1..])
  }

  /** reviveBlacklistedNodes (group.go:551). */
  function Revived(g: Group, now: int): Group {
    var ids := IdsOf(Taken(g, now));
    g.(nodes := map x | x in g.nodes :: if x in ids then Revive(g.nodes[x]) else g.nodes[x])
  }

  // ---------------------------------------------------------------- in which order

  function Rotate(ids: seq<Id>, turn: nat): seq<Id> {
    if |ids| <= 1 then ids else ids[turn % |ids|..] + ids[..turn % |ids|]
  }

  function Pick(nodes: map<Id, Node>, ids: seq<Id>, want: Node -> bool): seq<Id> {
    if |ids| == 0 then []
    else (if ids[0] in nodes && want(nodes[ids[0]]) then [ids[0]] else []) + Pick(nodes, ids[1..], want)
  }

  /** Latency used for sorting: a member without one comes last. */
  predicate Faster(nodes: map<Id, Node>, a: Id, b: Id) {
    && a in nodes && nodes[a].latencyMs > 0
    && (b !in nodes || nodes[b].latencyMs <= 0 || nodes[a].latencyMs < nodes[b].latencyMs)
  }

  function InsertByLatency(nodes: map<Id, Node>, x: Id, sorted: seq<Id>): seq<Id> {
    if |sorted| == 0 || !Faster(nodes, sorted[0], x) then [x] + sorted
    else [sorted[0]] + InsertByLatency(nodes, x, sorted[1..])
  }

  function SortByLatency(nodes: map<Id, Node>, ids: seq<Id>): seq<Id> {
    if |ids| == 0 then [] else InsertByLatency(nodes, ids[0], SortByLatency(nodes, ids[1..]))
  }

  /** Members that answered fast lately, else those that ever answered (group.go:694). */
  function LatencyPool(nodes: map<Id, Node>, ids: seq<Id>): seq<Id> {
    var fast := Pick(nodes, ids, (n: Node) => n.candidate);
    if fast != [] then fast else Pick(nodes, ids, (n: Node) => !n.candidate && n.lastSuccessAt != 0)
  }

  /** candidates (group.go:494) outside forced mode, once the eligible members are known. */
  function Ordered(g: Group, ids: seq<Id>, shuffle: seq<Id> -> seq<Id>): (Group, seq<Id>) {
    match g.policy.strategy
    case Manual =>
      (g, (if g.selected in ids then [g.selected] else []) + Without(ids, g.selected))
    case LeastLatency =>
      var pool := LatencyPool(g.nodes, ids);
      if pool != [] then (g, SortByLatency(g.nodes, pool))
      else if g.policy.fallback == Manual then (g, ids)
      else if g.policy.fallback == Random then (g, shuffle(ids))
      else if |ids| <= 1 then (g, ids)
      else (g.(fallbackTurn := g.fallbackTurn + 1), Rotate(ids, g.fallbackTurn))
    case RoundRobin => if |ids| <= 1 then (g, ids) else (g.(turn := g.turn + 1), Rotate(ids, g.turn))
    case Random => (g, shuffle(ids))
  }

  function Without(ids: seq<Id>, x: Id): seq<Id> {
    if |ids| == 0 then [] else (if ids[0] == x then [] else [ids[0]]) + Without(ids[1..], x)
  }

  function Candidates(g: Group, now: int, shuffle: seq<Id> -> seq<Id>): (Group, seq<Id>) {
    if g.policy.forceSelected then
      if g.selected in g.nodes && Eligible(g.nodes[g.selected], now, true) then (g, [g.selected]) else (g, [])
    else
      var g1 := if EligibleIds(g.nodes, g.order, now) == [] then Revived(g, now) else g;
      var ids := EligibleIds(g1.nodes, g1.order, now);
      if ids == [] then (g1, []) else Ordered(g1, ids, shuffle)
  }

  ghost predicate Permutes(shuffle: seq<Id> -> seq<Id>) {
    forall ids :: multiset(shuffle(ids)) == multiset(ids)
  }

  // ---------------------------------------------------------------- revival wakes the least candidates

  ghost predicate SortedEntries(entries: seq<Entry>) {
    forall i, j :: 0 <= i < j < |entries| ==> Less(entries[i].rank, entries[j].rank)
  }

  ghost predicate DistinctRanks(entries: seq<Entry>) {
    forall i, j :: 0 <= i < j < |entries| ==> entries[i].rank.order != entries[j].rank.order
  }

  lemma {:induction false} InsertContents(e: Entry, sorted: seq<Entry>)
    ensures multiset(Insert(e, sorted)) == multiset(sorted) + multiset{e}
    ensures |Insert(e, sorted)| == |sorted| + 1
  {
    if !(|sorted| == 0 || Less(e.rank, sorted[0].rank)) {
      InsertContents(e, sorted[1..]);
      assert sorted == [sorted[0]] + sorted[1..];
    } else {
      assert Insert(e, sorted) == [e] + sorted;
    }
  }

  lemma {:induction false} InsertSorts(e: Entry, sorted: seq<Entry>)
    requires SortedEntries(sorted) && forall x :: x in sorted ==> x.rank.order != e.rank.order
    ensures SortedEntries(Insert(e, sorted))
  {
    InsertContents(e, sorted);
    if |sorted| == 0 {
    } else if Less(e.rank, sorted[0].rank) {
      forall j | 0 <= j < |sorted|
        ensures Less(e.rank, sorted[j].rank)
      {
        RevivalOrderIsStrictTotal(e.rank, sorted[0].rank, sorted[j].rank);
      }
    } else {
      RevivalOrderIsStrictTotal(e.rank, sorted[0].rank, e.rank);
      InsertSorts(e, sorted[1..]);
      InsertContents(e, sorted[1..]);
      var rest := Insert(e, sorted[1..]);
      forall x | x in rest
        ensures Less(sorted[0].rank, x.rank)
      {
        assert x in multiset(rest);
        assert x == e || x in sorted[1..];
        if x != e {
          var j :| 0 <= j < |sorted[1..]| && sorted[1..][j] == x;
          assert Less(sorted[0].rank, sorted[j + 1].rank);
        }
      }
    }
  }

  lemma {:induction false} SortSorts(entries: seq<Entry>)
    requires DistinctRanks(entries)
    ensures SortedEntries(Sort(entries)) && multiset(Sort(entries)) == multiset(entries)
    ensures |Sort(entries)| == |entries|
  {
    if |entries| > 0 {
      SortSorts(entries[1..]);
      InsertContents(entries[0], Sort(entries[1..]));
      assert entries == [entries[0]] + entries[1..];
      forall x | x in Sort(entries[1..])
        ensures x.rank.order != entries[0].rank.order
      {
        assert x in multiset(Sort(entries[1..]));
        assert x in entries[1..];
        var j :| 0 <= j < |entries[1..]| && entries[1..][j] == x;
        assert entries[j + 1] == x;
      }
      InsertSorts(entries[0], Sort(entries[1..]));
    }
  }

  lemma {:induction false} EntriesContents(g: Group, k: nat, now: int)
    ensures forall e :: e in Entries(g, k, now) <==>
              && k <= e.rank.order < |g.order| && g.order[e.rank.order] == e.id
              && e.id in g.nodes && Revivable(g.nodes[e.id], now) && e.rank == CandidateOf(g.nodes[e.id], e.rank.order)
    ensures DistinctRanks(Entries(g, k, now))
    decreases |g.order| - k
  {
    if k < |g.order| {
      EntriesContents(g, k + 1, now);
      var rest := Entries(g, k + 1, now);
      assert forall e :: e in rest ==> e.rank.order > k;
    }
  }

  lemma {:induction false} IdsOfContents(entries: seq<Entry>)
    ensures |IdsOf(entries)| == |entries|
    ensures forall x :: x in IdsOf(entries) <==> exists e :: e in entries && e.id == x
  {
    if |entries| > 0 {
      IdsOfContents(entries[1..]);
      assert entries == [entries[0]] + entries[1..];
    }
  }

  /** The members a revival wakes: min(limit, count) of the blacklisted candidates, and each of them
      ranks before each candidate left asleep. */
  lemma RevivalWakesTheLeast(g: Group, now: int)
    requires WellFormed(g) && g.policy.revivalLimit > 0
    ensures var all, woken := Entries(g, 0, now), Taken(g, now);
            && |woken| == (if g.policy.revivalLimit < |all| then g.policy.revivalLimit else |all|)
            && (forall e :: e in woken ==> e in all)
            && (forall e, f :: e in woken && f in all && f !in woken ==> Less(e.rank, f.rank))
            && Distinct(IdsOf(woken))
  {
    var all := Entries(g, 0, now);
    var sorted := Sort(all);
    var woken := Taken(g, now);
    EntriesContents(g, 0, now);
    SortSorts(all);
    PrefixIsLeast(all, sorted, |woken|);
    WokenDistinct(g, now, woken);
  }

  /** The first k of a sorted list rank before the rest. */
  lemma PrefixIsLeast(all: seq<Entry>, sorted: seq<Entry>, k: nat)
    requires SortedEntries(sorted) && multiset(sorted) == multiset(all) && k <= |sorted|
    ensures forall e :: e in sorted[..k] ==> e in all
    ensures forall e, f :: e in sorted[..k] && f in all && f !in sorted[..k] ==> Less(e.rank, f.rank)
    ensures SortedEntries(sorted[..k])
  {
    var head := sorted[..k];
    forall e | e in head
      ensures e in all
    {
      assert e in multiset(sorted);
    }
    forall e, f | e in head && f in all && f !in head
      ensures Less(e.rank, f.rank)
    {
      assert f in multiset(sorted);
      var i :| 0 <= i < k && head[i] == e;
      assert sorted == head + sorted[k..];
      var j :| 0 <= j < |sorted[k..]| && sorted[k..][j] == f;
      assert Less(sorted[i].rank, sorted[k + j].rank);
    }
  }

  lemma WokenDistinct(g: Group, now: int, woken: seq<Entry>)
    requires WellFormed(g) && SortedEntries(woken)
    requires forall e :: e in woken ==>
               && e.rank.order < |g.order| && g.order[e.rank.order] == e.id
               && e.id in g.nodes && e.rank == CandidateOf(g.nodes[e.id], e.rank.order)
    ensures Distinct(IdsOf(woken))
  {
    IdsAt(woken);
    forall i, j | 0 <= i < j < |woken|
      ensures IdsOf(woken)[i] != IdsOf(woken)[j]
    {
      assert woken[i] in woken && woken[j] in woken && Less(woken[i].rank, woken[j].rank);
      RevivalOrderIsStrictTotal(woken[i].rank, woken[j].rank, woken[i].rank);
    }
  }

  lemma {:induction false} IdsAt(entries: seq<Entry>)
    ensures |IdsOf(entries)| == |entries| && forall i :: 0 <= i < |entries| ==> IdsOf(entries)[i] == entries[i].id
  {
    if |entries| > 0 {
      IdsAt(entries[1..]);
    }
  }

  // ---------------------------------------------------------------- candidates

  lemma RevivedWellFormed(g: Group, now: int)
    requires WellFormed(g)
    ensures WellFormed(Revived(g, now))
    ensures forall x :: x in g.nodes ==>
              Revived(g, now).nodes[x] == if x in IdsOf(Taken(g, now)) then Revive(g.nodes[x]) else g.nodes[x]
  {
  }

  /** After a revival someone is eligible as soon as someone was blacklisted. */
  lemma RevivalHelps(g: Group, now: int, x: Id)
    requires WellFormed(g) && g.policy.revivalLimit > 0 && x in g.nodes && Revivable(g.nodes[x], now)
    ensures exists y :: y in Revived(g, now).nodes && Eligible(Revived(g, now).nodes[y], now, false)
  {
    var all, woken := Entries(g, 0, now), Taken(g, now);
    EntriesContents(g, 0, now);
    RevivalWakesTheLeast(g, now);
    var k :| 0 <= k < |g.order| && g.order[k] == x;
    assert Entry(x, CandidateOf(g.nodes[x], k)) in all;
    var e := woken[0];
    assert e in woken && e in all;
    IdsOfContents(woken);
    RevivedWellFormed(g, now);
    assert Eligible(Revived(g, now).nodes[e.id], now, false);
  }

  lemma {:induction false} WithoutContents(ids: seq<Id>, x: Id)
    ensures forall y :: y in Without(ids, x) <==> y in ids && y != x
    ensures Distinct(ids) ==> Distinct(Without(ids, x))
  {
    if |ids| > 0 {
      WithoutContents(ids[1..], x);
      assert ids == [ids[0]] + ids[1..];
      if Distinct(ids) {
        assert ids[0] !in ids[1..];
      }
    }
  }

  lemma {:induction false} PickContents(nodes: map<Id, Node>, ids: seq<Id>, want: Node -> bool)
    ensures forall y :: y in Pick(nodes, ids, want) <==> y in ids && y in nodes && want(nodes[y])
    ensures Distinct(ids) ==> Distinct(Pick(nodes, ids, want))
  {
    if |ids| > 0 {
      PickContents(nodes, ids[1..], want);
      assert ids == [ids[0]] + ids[1..];
      if Distinct(ids) {
        assert ids[0] !in ids[1..];
      }
    }
  }

  lemma {:induction false} InsertByLatencyContents(nodes: map<Id, Node>, x: Id, sorted: seq<Id>)
    ensures multiset(InsertByLatency(nodes, x, sorted)) == multiset(sorted) + multiset{x}
  {
    if !(|sorted| == 0 || !Faster(nodes, sorted[0], x)) {
      InsertByLatencyContents(nodes, x, sorted[1..]);
      assert sorted == [sorted[0]] + sorted[1..];
    } else {
      assert InsertByLatency(nodes, x, sorted) == [x] + sorted;
    }
  }

  lemma {:induction false} SortByLatencyContents(nodes: map<Id, Node>, ids: seq<Id>)
    ensures multiset(SortByLatency(nodes, ids)) == multiset(ids)
  {
    if |ids| > 0 {
      SortByLatencyContents(nodes, ids[1..]);
      InsertByLatencyContents(nodes, ids[0], SortByLatency(nodes, ids[1..]));
      assert ids == [ids[0]] + ids[1..];
    }
  }

  ghost predicate ByLatency(nodes: map<Id, Node>, ids: seq<Id>) {
    forall i, j :: 0 <= i < j < |ids| ==> !Faster(nodes, ids[j], ids[i])
  }

  lemma {:induction false} InsertByLatencySorts(nodes: map<Id, Node>, x: Id, sorted: seq<Id>)
    requires ByLatency(nodes, sorted)
    ensures ByLatency(nodes, InsertByLatency(nodes, x, sorted))
  {
    InsertByLatencyContents(nodes, x, sorted);
    if |sorted| > 0 && Faster(nodes, sorted[0], x) {
      var rest := InsertByLatency(nodes, x, sorted[1..]);
      InsertByLatencyContents(nodes, x, sorted[1..]);
      InsertByLatencySorts(nodes, x, sorted[1..]);
      forall k | 0 <= k < |rest|
        ensures !Faster(nodes, rest[k], sorted[0])
      {
        assert rest[k] in multiset(rest);
        assert rest[k] == x || rest[k] in sorted[1..];
      }
    }
  }

  /** The latency order lists a member only before members that are not faster. */
  lemma {:induction false} LatencyOrderIsSorted(nodes: map<Id, Node>, ids: seq<Id>)
    ensures ByLatency(nodes, SortByLatency(nodes, ids))
  {
    if |ids| > 0 {
      LatencyOrderIsSorted(nodes, ids[1..]);
      InsertByLatencySorts(nodes, ids[0], SortByLatency(nodes, ids[1..]));
    }
  }

  lemma RotateContents(ids: seq<Id>, turn: nat)
    ensures multiset(Rotate(ids, turn)) == multiset(ids)
  {
    if |ids| > 1 {
      assert ids == ids[..turn % |ids|] + ids[turn % |ids|..];
    }
  }

  lemma PermutedList(a: seq<Id>, b: seq<Id>)
    requires multiset(a) == multiset(b)
    ensures forall x :: x in a <==> x in b
    ensures Distinct(b) ==> Distinct(a)
    ensures |a| == |b|
  {
    forall x
      ensures x in a <==> x in b
    {
      assert x in multiset(a) <==> x in multiset(b);
    }
    assert |multiset(a)| == |a| && |multiset(b)| == |b|;
    if Distinct(b) {
      forall x
        ensures multiset(a)[x] <= 1
      {
        DistinctCounts(b, x);
      }
      forall i, j | 0 <= i < j < |a|
        ensures a[i] != a[j]
      {
        if a[i] == a[j] {
          TwiceCounts(a, i, j);
        }
      }
    }
  }

  lemma {:induction false} DistinctCounts(b: seq<Id>, x: Id)
    requires Distinct(b)
    ensures multiset(b)[x] <= 1
  {
    if |b| > 0 {
      assert b == [b[0]] + b[1..];
      DistinctCounts(b[1..], x);
      assert b[0] !in b[1..];
      assert b[0] !in multiset(b[1..]);
    }
  }

  lemma TwiceCounts(a: seq<Id>, i: nat, j: nat)
    requires i < j < |a| && a[i] == a[j]
    ensures multiset(a)[a[i]] >= 2
  {
    assert a == a[..i + 1] + a[i + 1..];
    assert a[i + 1..][j - i - 1] == a[j];
    assert a[i] in a[i + 1..] && a[..i + 1][i] == a[i] && a[i] in a[..i + 1];
    assert a[i] in multiset(a[..i + 1]) && a[i] in multiset(a[i + 1..]);
  }

  lemma LatencyPoolContents(nodes: map<Id, Node>, ids: seq<Id>)
    requires Distinct(ids)
    ensures Distinct(LatencyPool(nodes, ids)) && forall x :: x in LatencyPool(nodes, ids) ==> x in ids
  {
    PickContents(nodes, ids, (n: Node) => n.candidate);
    PickContents(nodes, ids, (n: Node) => !n.candidate && n.lastSuccessAt != 0);
  }

  /** Least latency: the fastest pool first, or the fallback order when nobody ever answered. */
  lemma LatencyOrderIsASelection(g: Group, ids: seq<Id>, shuffle: seq<Id> -> seq<Id>)
    requires ids != [] && Distinct(ids) && Permutes(shuffle) && g.policy.strategy == LeastLatency
    ensures var out := Ordered(g, ids, shuffle).1;
            out != [] && Distinct(out) && forall x :: x in out ==> x in ids
  {
    var pool := LatencyPool(g.nodes, ids);
    LatencyPoolContents(g.nodes, ids);
    if pool != [] {
      SortByLatencyContents(g.nodes, pool);
      PermutedList(SortByLatency(g.nodes, pool), pool);
    } else {
      PermutedList(shuffle(ids), ids);
      RotateContents(ids, g.fallbackTurn);
      PermutedList(Rotate(ids, g.fallbackTurn), ids);
    }
  }

  /** Ordering loses nobody who must be kept, adds nobody and repeats nobody. */
  lemma OrderedIsASelection(g: Group, ids: seq<Id>, shuffle: seq<Id> -> seq<Id>)
    requires ids != [] && Distinct(ids) && Permutes(shuffle)
    ensures var out := Ordered(g, ids, shuffle).1;
            && out != [] && Distinct(out) && (forall x :: x in out ==> x in ids)
            && (g.policy.strategy != LeastLatency ==> |out| == |ids|)
  {
    match g.policy.strategy
    case Manual =>
      WithoutContents(ids, g.selected);
      ManualKeepsAll(ids, g.selected);
    case LeastLatency =>
      LatencyOrderIsASelection(g, ids, shuffle);
    case RoundRobin =>
      RotateContents(ids, g.turn);
      PermutedList(Rotate(ids, g.turn), ids);
    case Random =>
      PermutedList(shuffle(ids), ids);
  }

  lemma OrderedKeepsMembers(g: Group, ids: seq<Id>, shuffle: seq<Id> -> seq<Id>)
    ensures var h := Ordered(g, ids, shuffle).0;
            h.nodes == g.nodes && h.order == g.order && h.selected == g.selected && h.policy == g.policy
  {
  }

  lemma ManualKeepsAll(ids: seq<Id>, x: Id)
    requires Distinct(ids) && ids != []
    ensures var out := (if x in ids then [x] else []) + Without(ids, x);
            out != [] && Distinct(out) && |out| == |ids|
  {
    WithoutContents(ids, x);
    WithoutSize(ids, x);
    assert ids[0] == x || ids[0] in Without(ids, x);
  }

  lemma {:induction false} WithoutSize(ids: seq<Id>, x: Id)
    requires Distinct(ids)
    ensures |Without(ids, x)| == if x in ids then |ids| - 1 else |ids|
  {
    if |ids| > 0 {
      WithoutSize(ids[1..], x);
      assert ids == [ids[0]] + ids[1..];
      assert ids[0] !in ids[1..];
    }
  }

  lemma {:induction false} WithoutAbsent(ids: seq<Id>, x: Id)
    requires x !in ids
    ensures Without(ids, x) == ids
  {
    if |ids| > 0 {
      WithoutAbsent(ids[1..], x);
    }
  }

  /** A manual balancer tries the selected member first and the others in the group's order. */
  lemma ManualTriesSelectedFirst(g: Group, ids: seq<Id>, shuffle: seq<Id> -> seq<Id>)
    requires g.policy.strategy == Manual && Distinct(ids)
    ensures var out := Ordered(g, ids, shuffle).1;
            && (g.selected in ids ==> out != [] && out[0] == g.selected)
            && Without(out, g.selected) == Without(ids, g.selected)
  {
    var rest := Without(ids, g.selected);
    WithoutContents(ids, g.selected);
    WithoutAbsent(rest, g.selected);
    assert ([g.selected] + rest)[1..] == rest;
    assert [] + rest == rest;
  }

  /** Outside forced mode the candidate list is empty only when no enabled, untombstoned, non-dead
      member exists; it lists eligible members only, each once. */
  lemma NoAvoidableOutage(g: Group, now: int, shuffle: seq<Id> -> seq<Id>)
    requires WellFormed(g) && !g.policy.forceSelected && g.policy.revivalLimit > 0 && Permutes(shuffle)
    ensures var (h, out) := Candidates(g, now, shuffle);
            && (out != [] <==> exists x :: x in g.nodes && Salvageable(g.nodes[x]))
            && Distinct(out)
            && (forall x :: x in out ==> x in h.nodes && Eligible(h.nodes[x], now, false))
            && h.nodes == (if EligibleIds(g.nodes, g.order, now) == [] then Revived(g, now).nodes else g.nodes)
  {
    var ids0 := EligibleIds(g.nodes, g.order, now);
    EligibleIdsContents(g.nodes, g.order, now);
    var g1 := if ids0 == [] then Revived(g, now) else g;
    RevivedWellFormed(g, now);
    var ids := EligibleIds(g1.nodes, g1.order, now);
    EligibleIdsContents(g1.nodes, g1.order, now);
    if ids != [] {
      OrderedIsASelection(g1, ids, shuffle);
      OrderedKeepsMembers(g1, ids, shuffle);
      assert ids[0] in ids;
    }
    if exists x :: x in g.nodes && Salvageable(g.nodes[x]) {
      var x :| x in g.nodes && Salvageable(g.nodes[x]);
      if ids0 == [] {
        assert x !in ids0;
        RevivalHelps(g, now, x);
        var y :| y in g1.nodes && Eligible(g1.nodes[y], now, false);
        assert y in ids;
      }
    }
  }
}
