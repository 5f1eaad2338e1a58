/** One balancer member: its health transitions as functions of its state, the class that performs them
    in place (core/singboxcore/node.go), and the order in which blacklisted members are revived. */
module NodeHealth {

  datatype Health = Alive | Dead | Blacklisted

  /** Times are integers, zero meaning unset. */
  datatype Node = Node(
    enabled: bool, tombstoned: bool, removeAfter: int,
    health: Health, blacklistedAt: int, blacklistedUntil: int,
    latencyMs: int, candidate: bool, staleFallback: bool, slowCount: nat, failures: nat,
    lastSuccessAt: int, lastCheckedAt: int, active: int)

  const NEW_NODE := Node(true, false, 0, Alive, 0, 0, 0, false, false, 0, 0, 0, 0, 0)

  predicate Eligible(n: Node, now: int, ignoreHealth: bool) {
    && n.enabled && !n.tombstoned
    && (ignoreHealth
        || (n.health != Dead && (n.health == Blacklisted ==> n.blacklistedUntil != 0 && n.blacklistedUntil <= now)))
  }

  /** A member that could serve now or after a revival. */
  predicate Salvageable(n: Node) {
    n.enabled && !n.tombstoned && n.health != Dead
  }

  predicate StillBlacklisted(n: Node, now: int) {
    n.health == Blacklisted && (n.blacklistedUntil == 0 || n.blacklistedUntil > now)
  }

  /** blacklistRevivalCandidate (node.go:437). */
  predicate Revivable(n: Node, now: int) {
    n.enabled && !n.tombstoned && StillBlacklisted(n, now)
  }

  function MarkAlive(n: Node): Node {
    n.(health := Alive, blacklistedAt := 0, blacklistedUntil := 0)
  }

  function Failing(n: Node, now: int): Node {
    n.(lastCheckedAt := now, failures := n.failures + 1, candidate := false, staleFallback := n.lastSuccessAt != 0)
  }

  function MarkFailed(n: Node, ttl: int, now: int): Node {
    var f := Failing(n, now);
    if ttl > 0 then f.(health := Blacklisted, blacklistedAt := now, blacklistedUntil := now + ttl)
    else f.(health := Dead)
  }

  /** Shared by probe failures and traffic failures (node.go:333, node.go:363). */
  function CountFailure(n: Node, threshold: int, ttl: int, now: int): Node {
    var f := Failing(n, now);
    if threshold > 0 && f.failures >= threshold then
      f.(health := Blacklisted, blacklistedAt := now, blacklistedUntil := if ttl > 0 then now + ttl else 0)
    else f
  }

  /** What every answered probe resets. */
  function Answered(n: Node, ms: int, now: int): Node {
    MarkAlive(n).(latencyMs := ms, lastCheckedAt := now, failures := 0, lastSuccessAt := now)
  }

  /** Fast answers make a candidate; the limit-th slow one in a row unmakes it. */
  function Rate(n: Node, slow: bool, limit: int): Node {
    if !slow then n.(slowCount := 0, candidate := true, staleFallback := false)
    else if n.slowCount + 1 >= limit then n.(slowCount := n.slowCount + 1, candidate := false, staleFallback := true)
    else n.(slowCount := n.slowCount + 1)
  }

  function ProbeSuccess(n: Node, latency: int, maxLatency: int, slowThreshold: int, now: int): Node {
    var ms := if latency < 0 then 0 else latency;
    Rate(Answered(n, ms, now), maxLatency > 0 && ms > maxLatency, if slowThreshold <= 0 then 1 else slowThreshold)
  }

  function Revive(n: Node): Node {
    if !n.enabled || n.tombstoned || n.health != Blacklisted then n
    else MarkAlive(n).(failures := 0, slowCount := 0, candidate := true, staleFallback := false)
  }

  function Tombstone(n: Node, ttl: int, now: int): Node {
    n.(enabled := false, tombstoned := true, removeAfter := if ttl > 0 then now + ttl else n.removeAfter)
  }

  predicate RemoveReady(n: Node, now: int) {
    n.tombstoned && (n.active <= 0 || (n.removeAfter != 0 && n.removeAfter <= now))
  }

  // ---------------------------------------------------------------- revival order

  datatype Candidate = Candidate(
    failures: nat, hasSuccess: bool, lastSuccessAt: int, hasLatency: bool, latencyMs: int,
    lastCheckedAt: int, blacklistedAt: int, blacklistedUntil: int, order: nat)

  function CandidateOf(n: Node, order: nat): Candidate {
    Candidate(n.failures, n.lastSuccessAt != 0, n.lastSuccessAt, n.latencyMs > 0, n.latencyMs,
              n.lastCheckedAt, n.blacklistedAt, n.blacklistedUntil, order)
  }

  /** Earlier first, unset first. */
  predicate UnsetFirst(a: int, b: int) {
    if a == 0 then true else if b == 0 then false else a < b
  }

  /** Earlier first, unset last. */
  predicate UnsetLast(a: int, b: int) {
    if a == 0 then false else if b == 0 then true else a < b
  }

  /** blacklistRevivalCandidateLess (group.go:648). */
  predicate Less(l: Candidate, r: Candidate) {
    if l.failures != r.failures then l.failures < r.failures
    else if l.hasSuccess != r.hasSuccess then l.hasSuccess
    else if l.lastSuccessAt != r.lastSuccessAt then l.lastSuccessAt > r.lastSuccessAt
    else if l.hasLatency != r.hasLatency then l.hasLatency
    else if l.latencyMs != r.latencyMs then l.latencyMs < r.latencyMs
    else if l.lastCheckedAt != r.lastCheckedAt then UnsetFirst(l.lastCheckedAt, r.lastCheckedAt)
    else if l.blacklistedAt != r.blacklistedAt then UnsetLast(l.blacklistedAt, r.blacklistedAt)
    else if l.blacklistedUntil != r.blacklistedUntil then UnsetLast(l.blacklistedUntil, r.blacklistedUntil)
    else l.order < r.order
  }

  /** The revival order is strict and, between different positions, total. */
  lemma RevivalOrderIsStrictTotal(a: Candidate, b: Candidate, c: Candidate)
    ensures !Less(a, a)
    ensures Less(a, b) && Less(b, c) ==> Less(a, c)
    ensures a.order != b.order ==> (Less(a, b) <==> !Less(b, a))
  {
  }

  // ---------------------------------------------------------------- the member object

  class NodeState {
    var enabled: bool
    var tombstoned: bool
    var removeAfter: int
    var health: Health
    var blacklistedAt: int
    var blacklistedUntil: int
    var latencyMs: int
    var candidate: bool
    var staleFallback: bool
    var slowCount: nat
    var failures: nat
    var lastSuccessAt: int
    var lastCheckedAt: int
    var active: int

    constructor ()
      ensures View() == NEW_NODE
    {
      enabled, tombstoned, removeAfter := true, false, 0;
      health, blacklistedAt, blacklistedUntil := Alive, 0, 0;
      latencyMs, candidate, staleFallback, slowCount, failures := 0, false, false, 0, 0;
      lastSuccessAt, lastCheckedAt, active := 0, 0, 0;
    }

    function View(): Node
      reads this
    {
      Node(enabled, tombstoned, removeAfter, health, blacklistedAt, blacklistedUntil,
           latencyMs, candidate, staleFallback, slowCount, failures, lastSuccessAt, lastCheckedAt, active)
    }

    /** What every failure leaves behind. */
    method NoteFailure(now: int)
      modifies this`lastCheckedAt, this`failures, this`candidate, this`staleFallback
      ensures View() == Failing(old(View()), now)
    {
      lastCheckedAt := now;
      failures := failures + 1;
      candidate := false;
      staleFallback := lastSuccessAt != 0;
    }

    method RecordFailed(ttl: int, now: int)
      modifies this
      ensures View() == MarkFailed(old(View()), ttl, now)
    {
      NoteFailure(now);
      if ttl > 0 {
        health := Blacklisted;
        blacklistedAt := now;
        blacklistedUntil := now + ttl;
        return;
      }
      health := Dead;
    }

    /** True when this failure is the one that blacklists the member (node.go:363). */
    method RecordTrafficFailure(threshold: int, ttl: int, now: int) returns (blacklistedNow: bool)
      modifies this
      ensures View() == CountFailure(old(View()), threshold, ttl, now)
      ensures blacklistedNow == (!StillBlacklisted(old(View()), now) && StillBlacklisted(View(), now))
    {
      var was := health == Blacklisted && (blacklistedUntil == 0 || blacklistedUntil > now);
      NoteFailure(now);
      if threshold > 0 && failures >= threshold {
        health := Blacklisted;
        blacklistedAt := now;
        if ttl > 0 {
          blacklistedUntil := now + ttl;
        } else {
          blacklistedUntil := 0;
        }
      }
      return !was && health == Blacklisted && (blacklistedUntil == 0 || blacklistedUntil > now);
    }

    method RecordAnswer(ms: int, now: int)
      modifies this
      ensures View() == Answered(old(View()), ms, now)
    {
      latencyMs, lastCheckedAt, failures, lastSuccessAt := ms, now, 0, now;
      health, blacklistedAt, blacklistedUntil := Alive, 0, 0;
    }

    method RateAnswer(slow: bool, limit: int)
      modifies this`slowCount, this`candidate, this`staleFallback
      ensures View() == Rate(old(View()), slow, limit)
    {
      if slow {
        slowCount := slowCount + 1;
        if slowCount >= limit {
          candidate := false;
          staleFallback := true;
        }
        return;
      }
      slowCount := 0;
      candidate := true;
      staleFallback := false;
    }

    /** recordLeastLatencyProbeSuccess (node.go:291). */
    method RecordProbeSuccess(latency: int, maxLatency: int, slowThreshold: int, now: int)
      modifies this
      ensures View() == ProbeSuccess(old(View()), latency, maxLatency, slowThreshold, now)
    {
      var ms := latency;
      if ms < 0 {
        ms := 0;
      }
      var limit := slowThreshold;
      if limit <= 0 {
        limit := 1;
      }
      RecordAnswer(ms, now);
      RateAnswer(maxLatency > 0 && ms > maxLatency, limit);
    }

    method ReviveBlacklist() returns (revived: bool)
      modifies this
      ensures View() == Revive(old(View()))
      ensures revived == (old(enabled) && !old(tombstoned) && old(health) == Blacklisted)
    {
      if !enabled || tombstoned || health != Blacklisted {
        return false;
      }
      health := Alive;
      blacklistedAt := 0;
      blacklistedUntil := 0;
      failures := 0;
      slowCount := 0;
      candidate := true;
      staleFallback := false;
      return true;
    }

    method MarkTombstone(ttl: int, now: int)
      modifies this
      ensures View() == Tombstone(old(View()), ttl, now)
    {
      enabled := false;
      tombstoned := true;
      if ttl > 0 {
        removeAfter := now + ttl;
      }
    }
  }
}
