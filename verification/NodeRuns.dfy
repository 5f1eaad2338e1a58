/** What a member's counters mean over a whole run of probes (core/singboxcore/node.go:291-361). */
module NodeRuns {
  import opened NodeHealth

  /** A probe answers after so many milliseconds, or fails; the time is when it was checked. */
  datatype Probe = Answer(ms: int, at: int) | Miss(at: int)

  datatype Limits = Limits(maxLatency: int, threshold: int, ttl: int)

  function Apply(n: Node, p: Probe, lim: Limits): Node {
    match p
    case Answer(ms, at) => ProbeSuccess(n, ms, lim.maxLatency, lim.threshold, at)
    case Miss(at) => CountFailure(n, lim.threshold, lim.ttl, at)
  }

  function Run(n: Node, probes: seq<Probe>, lim: Limits): Node {
    if |probes| == 0 then n else Apply(Run(n, probes[..|probes| - 1], lim), probes[|probes| - 1], lim)
  }

  predicate Slow(p: Probe, lim: Limits) {
    p.Answer? && lim.maxLatency > 0 && p.ms > lim.maxLatency
  }

  predicate Fast(p: Probe, lim: Limits) {
    p.Answer? && !Slow(p, lim)
  }

  /** The last m probes failed and the one before them, if any, answered. */
  ghost predicate MissedLast(probes: seq<Probe>, m: nat) {
    && m <= |probes|
    && (forall k :: |probes| - m <= k < |probes| ==> probes[k].Miss?)
    && (m < |probes| ==> probes[|probes| - 1 - m].Answer?)
  }

  function SlowCount(probes: seq<Probe>, lim: Limits): nat {
    if |probes| == 0 then 0
    else
      var p := probes[|probes| - 1];
      if Fast(p, lim) then 0 else SlowCount(probes[..|probes| - 1], lim) + if p.Answer? then 1 else 0
  }

  /** A fast answer is followed by slow answers only, fewer than the limit. */
  ghost predicate EndsFast(probes: seq<Probe>, lim: Limits) {
    exists k :: 0 <= k < |probes| && Fast(probes[k], lim)
                && (forall j :: k < j < |probes| ==> Slow(probes[j], lim)) && |probes| - 1 - k < lim.threshold
  }

  function LastAnswer(probes: seq<Probe>): int {
    if |probes| == 0 then 0
    else if probes[|probes| - 1].Answer? then probes[|probes| - 1].at
    else LastAnswer(probes[..|probes| - 1])
  }

  lemma SlowTail(probes: seq<Probe>, p: Probe, lim: Limits)
    requires lim.threshold > 0
    ensures EndsFast(probes + [p], lim) <==>
            Fast(p, lim) || (Slow(p, lim) && EndsFast(probes, lim) && SlowCount(probes, lim) + 1 < lim.threshold)
  {
    var all := probes + [p];
    if Fast(p, lim) {
      assert Fast(all[|probes|], lim);
    }
    if EndsFast(all, lim) && !Fast(p, lim) {
      var k :| 0 <= k < |all| && Fast(all[k], lim) && (forall j :: k < j < |all| ==> Slow(all[j], lim))
        && |all| - 1 - k < lim.threshold;
      assert all[|probes|] == p && all[k] == probes[k];
      forall j | k < j < |probes|
        ensures Slow(probes[j], lim)
      {
        assert all[j] == probes[j];
      }
      SlowSince(probes, k, lim);
    }
    if Slow(p, lim) && EndsFast(probes, lim) && SlowCount(probes, lim) + 1 < lim.threshold {
      var k :| 0 <= k < |probes| && Fast(probes[k], lim) && (forall j :: k < j < |probes| ==> Slow(probes[j], lim))
               && |probes| - 1 - k < lim.threshold;
      SlowSince(probes, k, lim);
      assert all[k] == probes[k];
    }
  }

  lemma {:induction false} SlowSince(probes: seq<Probe>, k: nat, lim: Limits)
    requires k < |probes| && Fast(probes[k], lim) && forall j :: k < j < |probes| ==> Slow(probes[j], lim)
    ensures SlowCount(probes, lim) == |probes| - 1 - k
  {
    if k < |probes| - 1 {
      SlowSince(probes[..|probes| - 1], k, lim);
    }
  }

  lemma {:induction false} MissesRecount(probes: seq<Probe>, lim: Limits)
    requires lim.threshold > 0
    ensures var n := Run(NEW_NODE, probes, lim);
            && MissedLast(probes, n.failures)
            && n.health == (if n.failures >= lim.threshold then Blacklisted else Alive)
            && n.enabled && !n.tombstoned
  {
    if |probes| > 0 {
      MissesRecount(probes[..|probes| - 1], lim);
    }
  }

  lemma {:induction false} AnswersRecount(probes: seq<Probe>, lim: Limits)
    requires lim.threshold > 0
    ensures var n := Run(NEW_NODE, probes, lim);
            n.slowCount == SlowCount(probes, lim) && n.lastSuccessAt == LastAnswer(probes)
              && n.candidate == EndsFast(probes, lim)
  {
    if |probes| > 0 {
      var before, p := probes[..|probes| - 1], probes[|probes| - 1];
      assert probes == before + [p];
      AnswersRecount(before, lim);
      SlowTail(before, p, lim);
    }
  }

  /** For every run of probes on a new member: the failure count is the number of misses since the last
      answer; the member is blacklisted exactly from the threshold on, and never dead; it is a latency
      candidate exactly when a fast answer was followed by slow ones only, fewer than the threshold. */
  lemma ProbesRecount(probes: seq<Probe>, lim: Limits)
    requires lim.threshold > 0
    ensures var n := Run(NEW_NODE, probes, lim);
            && MissedLast(probes, n.failures)
            && n.health == (if n.failures >= lim.threshold then Blacklisted else Alive)
            && n.candidate == EndsFast(probes, lim)
            && n.slowCount == SlowCount(probes, lim)
            && n.lastSuccessAt == LastAnswer(probes)
  {
    MissesRecount(probes, lim);
    AnswersRecount(probes, lim);
  }
}
